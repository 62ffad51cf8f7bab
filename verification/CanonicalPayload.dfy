/** The payloads that header signatures are taken over. Header lookup, trimming and lower-casing are parameters;
    `get` already returns the first value under the canonical header name. */
module CanonicalPayload {
  import opened Base
  import opened Encoding
  import opened StringOrder

  datatype TextOps = TextOps(trim: string -> string, lower: string -> string)

  /** The line a signed header contributes, if its value is not blank. */
  function Line(ops: TextOps, get: string -> string, name: string): Option<string> {
    var value := ops.trim(get(name));
    if value == "" then None else Some(ops.lower(ops.trim(name)) + ":" + value)
  }

  function Lines(ops: TextOps, get: string -> string, names: seq<string>): seq<string> {
    if names == [] then []
    else
      var before := Lines(ops, get, names[..|names| - 1]);
      match Line(ops, get, names[|names| - 1])
      case None => before
      case Some(line) => before + [line]
  }

  /** CanonicalHeaderPayload: collect the lines in list order, sort them in place, join. */
  method CanonicalHeaderPayload(ops: TextOps, get: string -> string, names: seq<string>) returns (payload: string)
    ensures payload == Join(Sort(Lines(ops, get, names)), '\n')
  {
    var canonical: seq<string> := [];
    for k := 0 to |names|
      invariant canonical == Lines(ops, get, names[..k])
    {
      assert names[..k + 1][..k] == names[..k];
      var line := Line(ops, get, names[k]);
      if line.None? { continue; }
      canonical := canonical + [line.value];
    }
    assert names[..|names|] == names;
    canonical := Sort(canonical);
    payload := Join(canonical, '\n');
  }

  lemma {:induction false} LinesOfConcat(ops: TextOps, get: string -> string, a: seq<string>, b: seq<string>)
    ensures Lines(ops, get, a + b) == Lines(ops, get, a) + Lines(ops, get, b)
  {
    hide Line;
    if b == [] {
      assert a + b == a;
    } else {
      LinesOfConcat(ops, get, a, b[..|b| - 1]);
      assert (a + b)[..|a + b| - 1] == a + b[..|b| - 1];
    }
  }

  /** Where the last element of `a` sits in the permutation `b`. */
  lemma LocateLast<T>(a: seq<T>, b: seq<T>) returns (left: seq<T>, right: seq<T>)
    requires multiset(a) == multiset(b) && a != []
    ensures b == left + [a[|a| - 1]] + right && multiset(a[..|a| - 1]) == multiset(left + right)
  {
    var most, x := a[..|a| - 1], a[|a| - 1];
    assert a == most + [x];
    assert x in multiset(b);
    var i :| 0 <= i < |b| && b[i] == x;
    left, right := b[..i], b[i + 1..];
    assert b == left + [x] + right;
    assert multiset(most) == multiset(a) - multiset{x};
    assert multiset(left + right) == multiset(b) - multiset{x};
  }

  lemma {:induction false} LinesOfPermutation(ops: TextOps, get: string -> string, a: seq<string>, b: seq<string>)
    requires multiset(a) == multiset(b)
    ensures multiset(Lines(ops, get, a)) == multiset(Lines(ops, get, b))
  {
    hide Lines, Line;
    if a == [] {
      assert |multiset(b)| == 0;
      assert b == [];
    } else {
      var most, x := a[..|a| - 1], a[|a| - 1];
      assert a == most + [x];
      var left, right := LocateLast(a, b);
      LinesOfPermutation(ops, get, most, left + right);
      LinesOfConcat(ops, get, most, [x]);
      LinesOfConcat(ops, get, left, right);
      LinesOfConcat(ops, get, left + [x], right);
      LinesOfConcat(ops, get, left, [x]);
    }
  }

  lemma {:induction false} LineShape(ops: TextOps, get: string -> string, names: seq<string>)
    ensures forall line | line in Lines(ops, get, names) :: line != ""
  {
    if names != [] { LineShape(ops, get, names[..|names| - 1]); }
  }

  lemma JoinNonempty(lines: seq<string>)
    requires lines != [] && lines[0] != ""
    ensures Join(lines, '\n') != ""
  {
  }

  lemma SortMembers(lines: seq<string>)
    ensures |Sort(lines)| == |lines| && forall x :: x in Sort(lines) <==> x in lines
  {
    assert |Sort(lines)| == |multiset(Sort(lines))| == |lines|;
    forall x ensures x in Sort(lines) <==> x in lines {
      assert x in Sort(lines) <==> x in multiset(Sort(lines));
    }
  }

  /** Two requests have the same payload exactly when the same lines are signed, however the header lists are ordered;
      lines must not contain a line break, as header values never do. */
  lemma SamePayloadIffSameLines(ops: TextOps, get1: string -> string, names1: seq<string>,
                                get2: string -> string, names2: seq<string>)
    requires forall line | line in Lines(ops, get1, names1) || line in Lines(ops, get2, names2) :: '\n' !in line
    ensures Join(Sort(Lines(ops, get1, names1)), '\n') == Join(Sort(Lines(ops, get2, names2)), '\n') <==>
            multiset(Lines(ops, get1, names1)) == multiset(Lines(ops, get2, names2))
  {
    hide Lines, Sort, Join, Split;
    var l1, l2 := Lines(ops, get1, names1), Lines(ops, get2, names2);
    LineShape(ops, get1, names1);
    LineShape(ops, get2, names2);
    SortMembers(l1);
    SortMembers(l2);
    assert Join([], '\n') == "" by { JoinEmpty(); }
    if multiset(l1) == multiset(l2) { SortOfPermutation(l1, l2); }
    if l1 != [] { SplitJoin(Sort(l1), '\n'); assert Sort(l1)[0] in Sort(l1); JoinNonempty(Sort(l1)); }
    if l2 != [] { SplitJoin(Sort(l2), '\n'); assert Sort(l2)[0] in Sort(l2); JoinNonempty(Sort(l2)); }
  }

  lemma JoinEmpty()
    ensures Join([], '\n') == ""
  {
  }

  /** Where the list of signed headers has that name, trimmed and in lower case, with that value, trimmed. */
  ghost function Signed(ops: TextOps, get: string -> string, names: seq<string>, name: string, value: string): set<int>
  {
    set k | 0 <= k < |names| && ops.lower(ops.trim(names[k])) == name && ops.trim(get(names[k])) == value
  }

  /** Where the list contributes that line. */
  ghost function LineAt(ops: TextOps, get: string -> string, names: seq<string>, line: string): set<int> {
    set k | 0 <= k < |names| && Line(ops, get, names[k]) == Some(line)
  }

  lemma {:induction false} LineCount(ops: TextOps, get: string -> string, names: seq<string>, line: string)
    ensures multiset(Lines(ops, get, names))[line] == |LineAt(ops, get, names, line)|
  {
    hide Line;
    if names != [] {
      var n := |names| - 1;
      var most := names[..n];
      LineCount(ops, get, most, line);
      var fewer := LineAt(ops, get, most, line);
      assert LineAt(ops, get, names, line) == if Line(ops, get, names[n]) == Some(line) then fewer + {n} else fewer;
      hide LineAt;
      if Line(ops, get, names[n]).Some? { CountMore(Lines(ops, get, most), Line(ops, get, names[n]).value, line); }
    }
  }

  lemma CountMore<T>(s: seq<T>, x: T, y: T)
    ensures multiset(s + [x])[y] == multiset(s)[y] + if x == y then 1 else 0
  {
  }

  /** A text has one first ':'. */
  lemma OneColon(a: string, b: string, c: string, d: string)
    requires ':' !in a && ':' !in c && a + ":" + b == c + ":" + d
    ensures a == c && b == d
  {
    var s, t := a + ":" + b, c + ":" + d;
    assert s[|a|] == ':' && t[|c|] == ':';
    assert forall i | 0 <= i < |a| :: s[i] == a[i];
    assert forall i | 0 <= i < |c| :: t[i] == c[i];
    assert |a| == |c|;
    assert s[..|a|] == a && t[..|c|] == c && s[|a| + 1..] == b && t[|c| + 1..] == d;
  }

  ghost predicate NoColons(ops: TextOps, names: seq<string>) {
    forall k | 0 <= k < |names| :: ':' !in ops.lower(ops.trim(names[k]))
  }

  lemma LineOfHeader(ops: TextOps, get: string -> string, names: seq<string>, name: string, value: string)
    requires NoColons(ops, names) && ':' !in name && value != ""
    ensures LineAt(ops, get, names, name + ":" + value) == Signed(ops, get, names, name, value)
  {
    var line := name + ":" + value;
    forall k | 0 <= k < |names|
      ensures Line(ops, get, names[k]) == Some(line) <==>
              ops.lower(ops.trim(names[k])) == name && ops.trim(get(names[k])) == value
    {
      var n, v := ops.lower(ops.trim(names[k])), ops.trim(get(names[k]));
      if v != "" && n + ":" + v == line { OneColon(n, v, name, value); }
    }
  }

  /** Every line has the form of a header. */
  lemma HeaderOfLine(ops: TextOps, get: string -> string, names: seq<string>, line: string)
    returns (name: string, value: string)
    requires NoColons(ops, names) && LineAt(ops, get, names, line) != {}
    ensures ':' !in name && value != "" && line == name + ":" + value
  {
    var k :| k in LineAt(ops, get, names, line);
    name, value := ops.lower(ops.trim(names[k])), ops.trim(get(names[k]));
  }

  /** Two requests have the same payload exactly when they sign the same headers: every name, trimmed and in lower case,
      equally often with every non-blank trimmed value. Header names have no ':' and no text a line break. */
  lemma SamePayloadIffSameHeaders(ops: TextOps, get1: string -> string, names1: seq<string>,
                                  get2: string -> string, names2: seq<string>)
    requires NoColons(ops, names1) && NoColons(ops, names2)
    requires forall line | line in Lines(ops, get1, names1) || line in Lines(ops, get2, names2) :: '\n' !in line
    ensures Join(Sort(Lines(ops, get1, names1)), '\n') == Join(Sort(Lines(ops, get2, names2)), '\n') <==>
            forall name, value | value != "" ::
              |Signed(ops, get1, names1, name, value)| == |Signed(ops, get2, names2, name, value)|
  {
    hide Lines, Sort, Join;
    var l1, l2 := multiset(Lines(ops, get1, names1)), multiset(Lines(ops, get2, names2));
    SamePayloadIffSameLines(ops, get1, names1, get2, names2);
    if l1 == l2 {
      forall name, value | value != ""
        ensures |Signed(ops, get1, names1, name, value)| == |Signed(ops, get2, names2, name, value)|
      {
        SameHeaderCount(ops, get1, names1, get2, names2, name, value);
      }
    }
    if forall name, value | value != "" ::
         |Signed(ops, get1, names1, name, value)| == |Signed(ops, get2, names2, name, value)| {
      forall line ensures l1[line] == l2[line] { SameLineCount(ops, get1, names1, get2, names2, line); }
      assert l1 == l2;
    }
  }

  lemma SameHeaderCount(ops: TextOps, get1: string -> string, names1: seq<string>,
                        get2: string -> string, names2: seq<string>, name: string, value: string)
    requires NoColons(ops, names1) && NoColons(ops, names2) && value != ""
    requires multiset(Lines(ops, get1, names1)) == multiset(Lines(ops, get2, names2))
    ensures |Signed(ops, get1, names1, name, value)| == |Signed(ops, get2, names2, name, value)|
  {
    hide Lines, LineAt;
    if ':' in name {
      assert Signed(ops, get1, names1, name, value) == {} && Signed(ops, get2, names2, name, value) == {};
    } else {
      LineOfHeader(ops, get1, names1, name, value);
      LineOfHeader(ops, get2, names2, name, value);
      LineCount(ops, get1, names1, name + ":" + value);
      LineCount(ops, get2, names2, name + ":" + value);
    }
  }

  lemma SameLineCount(ops: TextOps, get1: string -> string, names1: seq<string>,
                      get2: string -> string, names2: seq<string>, line: string)
    requires NoColons(ops, names1) && NoColons(ops, names2)
    requires forall name, value | value != "" ::
               |Signed(ops, get1, names1, name, value)| == |Signed(ops, get2, names2, name, value)|
    ensures multiset(Lines(ops, get1, names1))[line] == multiset(Lines(ops, get2, names2))[line]
  {
    hide Lines, LineAt, Signed;
    LineCount(ops, get1, names1, line);
    LineCount(ops, get2, names2, line);
    var name, value := "", "";
    if LineAt(ops, get1, names1, line) != {} {
      name, value := HeaderOfLine(ops, get1, names1, line);
    } else if LineAt(ops, get2, names2, line) != {} {
      name, value := HeaderOfLine(ops, get2, names2, line);
    }
    if value != "" {
      LineOfHeader(ops, get1, names1, name, value);
      LineOfHeader(ops, get2, names2, name, value);
    }
  }

  /** Reordering the list of signed headers never changes the payload. */
  lemma PayloadIgnoresListOrder(ops: TextOps, get: string -> string, names: seq<string>, permuted: seq<string>)
    requires multiset(names) == multiset(permuted)
    ensures Join(Sort(Lines(ops, get, names)), '\n') == Join(Sort(Lines(ops, get, permuted)), '\n')
  {
    LinesOfPermutation(ops, get, names, permuted);
    SortOfPermutation(Lines(ops, get, names), Lines(ops, get, permuted));
  }

  // ---------- Session context ----------

  function ContextLines(ops: TextOps, headers: map<string, string>, keys: seq<string>): string
    requires forall k | k in keys :: k in headers
  {
    if keys == [] then ""
    else
      var rest, key := keys[..|keys| - 1], keys[|keys| - 1];
      ContextLines(ops, headers, rest) + (if rest == [] then "" else "\n") + ops.lower(ops.trim(key)) + ":" +
          ops.trim(headers[key])
  }

  /** The context payload is one line per key, in the order given. */
  lemma {:induction false} ContextByLine(ops: TextOps, headers: map<string, string>, keys: seq<string>,
                                         lines: seq<string>)
    requires (forall k | k in keys :: k in headers) && |lines| == |keys|
    requires forall i | 0 <= i < |keys| ::
               lines[i] == ops.lower(ops.trim(keys[i])) + ":" + ops.trim(headers[keys[i]])
    ensures ContextLines(ops, headers, keys) == Join(lines, '\n')
  {
    if |keys| > 1 {
      var n := |keys| - 1;
      ContextByLine(ops, headers, keys[..n], lines[..n]);
      JoinConcat(lines[..n], [lines[n]], '\n');
      assert lines == lines[..n] + [lines[n]];
      LastLine(lines[n]);
      hide Join;
      OneMoreLine(ContextLines(ops, headers, keys[..n]), ops.lower(ops.trim(keys[n])), ops.trim(headers[keys[n]]));
    } else if |keys| == 1 {
      LastLine(lines[0]);
      assert lines == [lines[0]] && keys[..0] == [];
    }
  }

  lemma OneMoreLine(before: string, name: string, value: string)
    ensures before + "\n" + name + ":" + value == before + ['\n'] + (name + ":" + value)
  {
  }

  lemma LastLine(line: string)
    ensures Join([line], '\n') == line
  {
  }

  /** CanonicalSessionContextPayload: whatever order the map yields its keys in, the payload is the one of the keys in
      ascending order. */
  method CanonicalSessionContextPayload(ops: TextOps, headers: map<string, string>) returns (payload: string)
    ensures forall ks | Sorted(ks) && multiset(ks) == multiset(headers.Keys) ::
              (forall k | k in ks :: k in headers) && payload == ContextLines(ops, headers, ks)
  {
    hide Less, Sorted, Sort;
    var keys: seq<string> := [];
    var todo := headers.Keys;
    while todo != {}
      invariant multiset(keys) + multiset(todo) == multiset(headers.Keys)
      decreases |todo|
    {
      var key :| key in todo;
      assert multiset(todo) == multiset(todo - {key}) + multiset{key};
      keys, todo := keys + [key], todo - {key};
    }
    SortSorts(keys);
    keys := Sort(keys);
    assert multiset(keys) == multiset(headers.Keys);
    forall k | k in keys ensures k in headers { assert k in multiset(keys); }
    payload := "";
    for i := 0 to |keys|
      invariant payload == ContextLines(ops, headers, keys[..i])
    {
      assert keys[..i + 1][..i] == keys[..i];
      if i > 0 { payload := payload + "\n"; } else { assert payload + "" == payload; }
      payload := payload + ops.lower(ops.trim(keys[i])) + ":" + ops.trim(headers[keys[i]]);
    }
    assert keys[..|keys|] == keys;
    forall ks | Sorted(ks) && multiset(ks) == multiset(headers.Keys) ensures ks == keys { SortedUnique(ks, keys); }
  }
}
