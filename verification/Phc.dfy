/** Password hashes in the PHC string form "$argon2id$v=19$m=…,t=…,p=…$salt$digest".
    Argon2id (section 3.1 of RFC 9106) is an arbitrary function of password, salt and parameters. */
module Phc {
  import opened Base
  import opened Encoding

  const ARGON_MEMORY := 65536
  const ARGON_ITERATIONS := 3
  const ARGON_PARALLELISM := 4
  const ARGON_OUTPUT := 32

  datatype Params = Params(memory: nat, iterations: nat, parallelism: nat)
  datatype Parsed = Parsed(params: Params, salt: seq<byte>, digest: seq<byte>)

  /** password, salt, iterations, memory, parallelism, output length. */
  type Argon = (seq<byte>, seq<byte>, nat, nat, nat, nat) -> seq<byte>

  function ParamText(p: Params): string {
    Join(["m=" + PrintNat(p.memory), "t=" + PrintNat(p.iterations), "p=" + PrintNat(p.parallelism)], ',')
  }

  function PrintPhc(p: Params, salt: seq<byte>, digest: seq<byte>): string {
    Join(["", "argon2id", "v=19", ParamText(p), Base64Encode(Std, salt), Base64Encode(Std, digest)], '$')
  }

  /** HashPassword with the salt as a parameter. */
  function HashPassword(argon: Argon, password: seq<byte>, salt: seq<byte>): string {
    var digest := argon(password, salt, ARGON_ITERATIONS, ARGON_MEMORY, ARGON_PARALLELISM, ARGON_OUTPUT);
    PrintPhc(Params(ARGON_MEMORY, ARGON_ITERATIONS, ARGON_PARALLELISM), salt, digest)
  }

  // ---------- Parsing ----------

  /** strings.Cut at the first '='. */
  function Cut(s: string): Option<(string, string)> {
    if s == "" then None
    else if s[0] == '=' then Some(("", s[1..]))
    else
      match Cut(s[1..])
      case None => None
      case Some((key, value)) => Some(([s[0]] + key, value))
  }

  /** One "key=value" entry applied to the parameters read so far; a later entry overrides an earlier one. */
  function ApplyEntry(p: Params, entry: string): Option<Params> {
    match Cut(entry)
    case None => None
    case Some((key, value)) =>
      match ParseUint32(value)
      case None => None
      case Some(n) =>
        if n == 0 then None
        else if key == "m" then Some(p.(memory := n))
        else if key == "t" then Some(p.(iterations := n))
        else if key == "p" && n <= 255 then Some(p.(parallelism := n))
        else None
  }

  function ApplyEntries(entries: seq<string>): Option<Params> {
    if entries == [] then Some(Params(0, 0, 0))
    else
      match ApplyEntries(entries[..|entries| - 1])
      case None => None
      case Some(p) => ApplyEntry(p, entries[|entries| - 1])
  }

  function ParsedPhc(hash: string): Option<Parsed> {
    var parts := Split(hash, '$');
    if |parts| != 6 || parts[0] != "" || parts[1] != "argon2id" || parts[2] != "v=19" then None
    else
      match (ApplyEntries(Split(parts[3], ',')), Base64Decode(Std, parts[4]), Base64Decode(Std, parts[5]))
      case (Some(p), Some(salt), Some(digest)) =>
        if p.memory == 0 || p.iterations == 0 || p.parallelism == 0 || salt == [] || digest == [] then None
        else Some(Parsed(p, salt, digest))
      case _ => None
  }

  /** Once an entry is bad, the whole list is. */
  lemma {:induction false} BadEntryStays(entries: seq<string>, k: nat)
    requires k <= |entries| && ApplyEntries(entries[..k]).None?
    ensures ApplyEntries(entries).None?
    decreases |entries| - k
  {
    if k < |entries| {
      assert entries[..k + 1][..k] == entries[..k];
      BadEntryStays(entries, k + 1);
    } else {
      assert entries[..k] == entries;
    }
  }

  /** parsePHC: the entry loop fills the parameters one by one. */
  method ParsePhc(hash: string) returns (r: Option<Parsed>)
    ensures r == ParsedPhc(hash)
  {
    hide Split, Base64Decode, ApplyEntry;
    var parts := Split(hash, '$');
    if |parts| != 6 || parts[0] != "" || parts[1] != "argon2id" || parts[2] != "v=19" {
      return None;
    }
    var p := Params(0, 0, 0);
    var entries := Split(parts[3], ',');
    for k := 0 to |entries|
      invariant ApplyEntries(entries[..k]) == Some(p)
    {
      assert entries[..k + 1][..k] == entries[..k];
      var next := ApplyEntry(p, entries[k]);
      if next.None? {
        BadEntryStays(entries, k + 1);
        return None;
      }
      p := next.value;
    }
    assert entries[..|entries|] == entries;
    if p.memory == 0 || p.iterations == 0 || p.parallelism == 0 { return None; }
    var salt := Base64Decode(Std, parts[4]);
    if salt.None? || salt.value == [] { return None; }
    var digest := Base64Decode(Std, parts[5]);
    if digest.None? || digest.value == [] { return None; }
    r := Some(Parsed(p, salt.value, digest.value));
  }

  /** VerifyPassword; `None` is ErrVerifyFailed. */
  function VerifyPassword(argon: Argon, password: seq<byte>, hash: string): Option<bool> {
    match ParsedPhc(hash)
    case None => None
    case Some(Parsed(p, salt, expected)) =>
      Some(argon(password, salt, p.iterations, p.memory, p.parallelism, |expected|) == expected)
  }

  // ---------- Which texts are hashes ----------

  lemma {:induction false} CutFound(s: string, key: string, value: string)
    requires '=' !in key && s == key + "=" + value
    ensures Cut(s) == Some((key, value))
  {
    if key == "" {
      assert s[1..] == value;
    } else {
      assert s[1..] == key[1..] + "=" + value;
      CutFound(s[1..], key[1..], value);
      assert [s[0]] + key[1..] == key;
    }
  }

  /** Cutting finds the first '='. */
  lemma {:induction false} CutMeaning(s: string)
    ensures match Cut(s)
            case None => '=' !in s
            case Some((key, value)) => '=' !in key && s == key + "=" + value
  {
    if s != "" && s[0] != '=' {
      CutMeaning(s[1..]);
      assert s == [s[0]] + s[1..];
    }
  }

  /** An entry "m=…", "t=…" or "p=…". */
  predicate Sets(entry: string, key: char) {
    |entry| >= 2 && entry[0] == key && entry[1] == '='
  }

  /** An entry with one of the three keys and a decimal number in range. */
  predicate GoodEntry(entry: string) {
    && (Sets(entry, 'm') || Sets(entry, 't') || Sets(entry, 'p'))
    && ParseUint32(entry[2..]).Some? && ParseUint32(entry[2..]).value > 0
    && (Sets(entry, 'p') ==> ParseUint32(entry[2..]).value <= 255)
  }

  lemma EntryMeaning(p: Params, entry: string)
    ensures ApplyEntry(p, entry).Some? <==> GoodEntry(entry)
    ensures ApplyEntry(p, entry).Some? ==>
              var q, n := ApplyEntry(p, entry).value, ParseUint32(entry[2..]).value;
              && q.memory == (if Sets(entry, 'm') then n else p.memory)
              && q.iterations == (if Sets(entry, 't') then n else p.iterations)
              && q.parallelism == (if Sets(entry, 'p') then n else p.parallelism)
  {
    hide Cut, ParseUint32;
    CutMeaning(entry);
    if |entry| >= 2 && entry[0] in "mtp" && entry[1] == '=' {
      assert entry == [entry[0]] + "=" + entry[2..];
      CutFound(entry, [entry[0]], entry[2..]);
    } else if Cut(entry).Some? {
      var (key, value) := Cut(entry).value;
      if |key| == 1 { assert entry[0] == key[0] && entry[1] == '='; }
    }
  }

  /** The number in the last entry with that key; 0 without one. */
  ghost predicate ValueIs(entries: seq<string>, key: char, n: nat) {
    if exists k :: 0 <= k < |entries| && Sets(entries[k], key) then
      exists k :: 0 <= k < |entries| && Sets(entries[k], key) && ParseUint32(entries[k][2..]) == Some(n) &&
                  forall j | k < j < |entries| :: !Sets(entries[j], key)
    else n == 0
  }

  lemma ValueStep(entries: seq<string>, entry: string, key: char, n: nat)
    requires if Sets(entry, key) then ParseUint32(entry[2..]) == Some(n) else ValueIs(entries, key, n)
    ensures ValueIs(entries + [entry], key, n)
  {
    hide ParseUint32;
    var more := entries + [entry];
    if Sets(entry, key) {
      assert more[|entries|] == entry;
    } else if exists k :: 0 <= k < |entries| && Sets(entries[k], key) {
      var k :| 0 <= k < |entries| && Sets(entries[k], key) && ParseUint32(entries[k][2..]) == Some(n) &&
               forall j | k < j < |entries| :: !Sets(entries[j], key);
      assert more[k] == entries[k];
    }
  }

  /** The parameter list: every entry must be good, and the last of each key counts. */
  lemma {:induction false} EntriesMeaning(entries: seq<string>)
    ensures ApplyEntries(entries).Some? <==> forall k | 0 <= k < |entries| :: GoodEntry(entries[k])
    ensures ApplyEntries(entries).Some? ==>
              var p := ApplyEntries(entries).value;
              && ValueIs(entries, 'm', p.memory) && ValueIs(entries, 't', p.iterations)
              && ValueIs(entries, 'p', p.parallelism)
  {
    if entries != [] {
      var most, last := entries[..|entries| - 1], entries[|entries| - 1];
      EntriesMeaning(most);
      assert entries == most + [last];
      if ApplyEntries(most).Some? {
        var p := ApplyEntries(most).value;
        EntryMeaning(p, last);
        hide ApplyEntry, ValueIs, GoodEntry;
        if ApplyEntry(p, last).Some? {
          var q := ApplyEntry(p, last).value;
          LastEntry(most, last, p, q);
        }
      }
    }
  }

  lemma LastEntry(most: seq<string>, last: string, p: Params, q: Params)
    requires GoodEntry(last)
    requires ValueIs(most, 'm', p.memory) && ValueIs(most, 't', p.iterations) && ValueIs(most, 'p', p.parallelism)
    requires var n := ParseUint32(last[2..]).value;
      && q.memory == (if Sets(last, 'm') then n else p.memory)
      && q.iterations == (if Sets(last, 't') then n else p.iterations)
      && q.parallelism == (if Sets(last, 'p') then n else p.parallelism)
    ensures ValueIs(most + [last], 'm', q.memory) && ValueIs(most + [last], 't', q.iterations)
    ensures ValueIs(most + [last], 'p', q.parallelism)
  {
    hide ValueIs, ParseUint32;
    ValueStep(most, last, 'm', q.memory);
    ValueStep(most, last, 't', q.iterations);
    ValueStep(most, last, 'p', q.parallelism);
  }

  /** A text in the PHC form: six parts, the algorithm, the version, good parameters with every key, and non-empty salt
      and digest in Base64. */
  ghost predicate WellFormed(hash: string) {
    var parts := Split(hash, '$');
    && |parts| == 6 && parts[0] == "" && parts[1] == "argon2id" && parts[2] == "v=19"
    && Base64Decode(Std, parts[4]).Some? && Base64Decode(Std, parts[4]).value != []
    && Base64Decode(Std, parts[5]).Some? && Base64Decode(Std, parts[5]).value != []
    && var entries := Split(parts[3], ',');
       && (forall k | 0 <= k < |entries| :: GoodEntry(entries[k]))
       && (exists k :: 0 <= k < |entries| && Sets(entries[k], 'm'))
       && (exists k :: 0 <= k < |entries| && Sets(entries[k], 't'))
       && (exists k :: 0 <= k < |entries| && Sets(entries[k], 'p'))
  }

  lemma ValuePositive(entries: seq<string>, key: char, n: nat)
    requires ValueIs(entries, key, n) && forall k | 0 <= k < |entries| :: GoodEntry(entries[k])
    ensures n > 0 <==> exists k :: 0 <= k < |entries| && Sets(entries[k], key)
  {
    hide ParseUint32;
  }

  /** For every text: parsing succeeds exactly on the well-formed ones, with the last value of each key. */
  lemma ParsedIff(hash: string)
    ensures ParsedPhc(hash).Some? <==> WellFormed(hash)
    ensures ParsedPhc(hash).Some? ==>
              var parts, r := Split(hash, '$'), ParsedPhc(hash).value;
              && ValueIs(Split(parts[3], ','), 'm', r.params.memory)
              && ValueIs(Split(parts[3], ','), 't', r.params.iterations)
              && ValueIs(Split(parts[3], ','), 'p', r.params.parallelism)
              && Base64Decode(Std, parts[4]) == Some(r.salt) && Base64Decode(Std, parts[5]) == Some(r.digest)
  {
    hide Split, Base64Decode, ApplyEntries, ValueIs, GoodEntry, Sets;
    var parts := Split(hash, '$');
    if |parts| == 6 {
      var entries := Split(parts[3], ',');
      EntriesMeaning(entries);
      if ApplyEntries(entries).Some? {
        var p := ApplyEntries(entries).value;
        ValuePositive(entries, 'm', p.memory);
        ValuePositive(entries, 't', p.iterations);
        ValuePositive(entries, 'p', p.parallelism);
      }
    }
  }

  /** For every stored text: verification fails exactly on texts that are not in the form, and otherwise answers whether
      the password gives the stored digest under the stored salt and parameters. */
  lemma VerifyPasswordIff(argon: Argon, password: seq<byte>, hash: string)
    ensures VerifyPassword(argon, password, hash).None? <==> !WellFormed(hash)
    ensures WellFormed(hash) ==>
              exists m, t, p: nat, salt, digest: seq<byte> ::
                var parts := Split(hash, '$');
                && ValueIs(Split(parts[3], ','), 'm', m) && ValueIs(Split(parts[3], ','), 't', t)
                && ValueIs(Split(parts[3], ','), 'p', p)
                && Base64Decode(Std, parts[4]) == Some(salt) && Base64Decode(Std, parts[5]) == Some(digest)
                && VerifyPassword(argon, password, hash) == Some(argon(password, salt, t, m, p, |digest|) == digest)
  {
    hide Split, Base64Decode, ParsedPhc, ValueIs, GoodEntry, Sets;
    ParsedIff(hash);
    if WellFormed(hash) {
      var r := ParsedPhc(hash).value;
      var parts := Split(hash, '$');
      assert ValueIs(Split(parts[3], ','), 'm', r.params.memory) && Base64Decode(Std, parts[4]) == Some(r.salt);
      assert VerifyPassword(argon, password, hash) == Some(
          argon(password, r.salt, r.params.iterations, r.params.memory, r.params.parallelism, |r.digest|) == r.digest);
    }
  }

  // ---------- Round trip ----------

  ghost predicate InRange(p: Params) {
    0 < p.memory < 0x1_0000_0000 && 0 < p.iterations < 0x1_0000_0000 && 0 < p.parallelism <= 255
  }

  lemma EntryReadBack(p: Params, key: char, n: nat)
    requires key in "mtp" && 0 < n < 0x1_0000_0000 && (key == 'p' ==> n <= 255)
    ensures ApplyEntry(p, [key] + "=" + PrintNat(n)) ==
            Some(if key == 'm' then p.(memory := n) else if key == 't' then p.(iterations := n)
                else p.(parallelism := n))
  {
    var entry := [key] + "=" + PrintNat(n);
    ParsePrintNat(n);
    assert entry[1..] == "=" + PrintNat(n);
    assert entry[1..][1..] == PrintNat(n);
    assert Cut(entry[1..]) == Some(("", PrintNat(n)));
    assert Cut(entry) == Some(([key] + "", PrintNat(n)));
    assert [key] + "" == [key];
  }

  lemma EntriesReadBack(p: Params)
    requires InRange(p)
    ensures Split(ParamText(p), ',') ==
            ["m=" + PrintNat(p.memory), "t=" + PrintNat(p.iterations), "p=" + PrintNat(p.parallelism)]
    ensures ApplyEntries(Split(ParamText(p), ',')) == Some(p)
  {
    hide Split, Join, ApplyEntry, PrintNat;
    var es := ["m=" + PrintNat(p.memory), "t=" + PrintNat(p.iterations), "p=" + PrintNat(p.parallelism)];
    SplitJoin(es, ',');
    var p1, p2 := Params(p.memory, 0, 0), Params(p.memory, p.iterations, 0);
    EntryReadBack(Params(0, 0, 0), 'm', p.memory);
    EntryReadBack(p1, 't', p.iterations);
    EntryReadBack(p2, 'p', p.parallelism);
    assert es[..2] == [es[0], es[1]] && es[..2][..1] == [es[0]] && es[..2][..1][..0] == [];
    assert es[0] == ['m'] + "=" + PrintNat(p.memory);
    assert ApplyEntries([es[0]]) == Some(p1);
    assert es[1] == ['t'] + "=" + PrintNat(p.iterations);
    assert ApplyEntries(es[..2]) == Some(p2);
    assert es[2] == ['p'] + "=" + PrintNat(p.parallelism);
  }

  /** Parsing recovers exactly the parameters, salt and digest that were printed. */
  lemma PhcRoundTrip(p: Params, salt: seq<byte>, digest: seq<byte>)
    requires InRange(p) && salt != [] && digest != []
    ensures ParsedPhc(PrintPhc(p, salt, digest)) == Some(Parsed(p, salt, digest))
  {
    hide Split, Join, Base64Encode, Base64Decode, ApplyEntries, ParamText;
    var parts := ["", "argon2id", "v=19", ParamText(p), Base64Encode(Std, salt), Base64Encode(Std, digest)];
    NoDollar(p);
    SplitJoin(parts, '$');
    EntriesReadBack(p);
    Base64RoundTrip(Std, salt);
    Base64RoundTrip(Std, digest);
  }

  lemma NoDollar(p: Params)
    ensures '$' !in ParamText(p)
  {
    hide PrintNat;
    var a, b, c := "m=" + PrintNat(p.memory), "t=" + PrintNat(p.iterations), "p=" + PrintNat(p.parallelism);
    assert [a, b, c][1..] == [b, c] && [b, c][1..] == [c];
    assert Join([b, c], ',') == b + [','] + c;
    assert ParamText(p) == a + [','] + (b + [','] + c);
  }

  /** A stored hash accepts exactly the passwords that hash to the same digest; in particular the original one. */
  lemma VerifyAcceptsHashed(argon: Argon, password: seq<byte>, attempt: seq<byte>, salt: seq<byte>)
    requires salt != []
    requires forall w: seq<byte>, s, t, m, p, n: nat :: |argon(w, s, t, m, p, n)| == n
    ensures VerifyPassword(argon, attempt, HashPassword(argon, password, salt)) ==
            Some(argon(attempt, salt, ARGON_ITERATIONS, ARGON_MEMORY, ARGON_PARALLELISM, ARGON_OUTPUT)
              == argon(password, salt, ARGON_ITERATIONS, ARGON_MEMORY, ARGON_PARALLELISM, ARGON_OUTPUT))
    ensures VerifyPassword(argon, password, HashPassword(argon, password, salt)) == Some(true)
  {
    hide PrintPhc, ParsedPhc;
    var digest := argon(password, salt, ARGON_ITERATIONS, ARGON_MEMORY, ARGON_PARALLELISM, ARGON_OUTPUT);
    PhcRoundTrip(Params(ARGON_MEMORY, ARGON_ITERATIONS, ARGON_PARALLELISM), salt, digest);
  }
}
