/** The proxy's rule engine: a list kept in descending priority by an exchange sort and by insertion.
    Whether a rule's path pattern and methods accept a request is the parameter `hits`. */
module Rules {
  import opened Base

  datatype Rule = Rule(id: string, priority: int, enabled: bool, pattern: string, methods: seq<string>)

  ghost predicate Sorted(s: seq<Rule>) {
    forall i, j | 0 <= i < j < |s| :: s[i].priority >= s[j].priority
  }

  // ---------- Exchange sort ----------

  function Swap(s: seq<Rule>, i: nat, j: nat): (r: seq<Rule>)
    requires i < |s| && j < |s|
    ensures |r| == |s|
  {
    s[i := s[j]][j := s[i]]
  }

  /** The inner loop: bring the largest of s[i..] to place i by exchanges. */
  function Inner(s: seq<Rule>, i: nat, j: nat): (r: seq<Rule>)
    requires i < j <= |s|
    ensures |r| == |s|
    decreases |s| - j
  {
    if j == |s| then s
    else Inner(if s[i].priority < s[j].priority then Swap(s, i, j) else s, i, j + 1)
  }

  function Outer(s: seq<Rule>, i: nat): (r: seq<Rule>)
    ensures |r| == |s|
    decreases |s| - i
  {
    if i + 1 >= |s| then s else Outer(Inner(s, i, i + 1), i + 1)
  }

  function ExchangeSort(s: seq<Rule>): (r: seq<Rule>)
    ensures |r| == |s|
  {
    Outer(s, 0)
  }

  lemma SwapPermutes(s: seq<Rule>, i: nat, j: nat)
    requires i < |s| && j < |s|
    ensures multiset(Swap(s, i, j)) == multiset(s)
  {
  }

  lemma {:induction false} InnerPermutes(s: seq<Rule>, i: nat, j: nat)
    requires i < j <= |s|
    ensures multiset(Inner(s, i, j)) == multiset(s)
    decreases |s| - j
  {
    hide Swap;
    if j < |s| {
      SwapPermutes(s, i, j);
      InnerPermutes(if s[i].priority < s[j].priority then Swap(s, i, j) else s, i, j + 1);
    }
  }

  lemma {:induction false} OuterPermutes(s: seq<Rule>, i: nat)
    ensures multiset(Outer(s, i)) == multiset(s)
    decreases |s| - i
  {
    hide Inner;
    if i + 1 < |s| {
      InnerPermutes(s, i, i + 1);
      OuterPermutes(Inner(s, i, i + 1), i + 1);
    }
  }

  ghost predicate AtMost(s: seq<Rule>, i: nat, p: int) {
    forall k | i <= k < |s| :: s[k].priority <= p
  }

  lemma {:induction false} InnerKeepsPrefix(s: seq<Rule>, i: nat, j: nat, p: int)
    requires i < j <= |s| && AtMost(s, i, p)
    ensures Inner(s, i, j)[..i] == s[..i] && AtMost(Inner(s, i, j), i, p)
    decreases |s| - j
  {
    if j < |s| {
      var t := if s[i].priority < s[j].priority then Swap(s, i, j) else s;
      assert t[..i] == s[..i];
      assert AtMost(t, i, p);
      hide Swap, AtMost;
      InnerKeepsPrefix(t, i, j + 1, p);
    }
  }

  /** After the inner loop place i holds a rule of the highest priority from there on. */
  lemma {:induction false} InnerSelects(s: seq<Rule>, i: nat, j: nat)
    requires i < j <= |s| && forall k | i <= k < j :: s[k].priority <= s[i].priority
    ensures AtMost(Inner(s, i, j), i, Inner(s, i, j)[i].priority)
    decreases |s| - j
  {
    if j < |s| {
      InnerSelects(if s[i].priority < s[j].priority then Swap(s, i, j) else s, i, j + 1);
    }
  }

  /** The first `i` places are final: none below any later rule. */
  ghost predicate PrefixDone(s: seq<Rule>, i: nat) {
    forall a | 0 <= a < i && a < |s| :: AtMost(s, a, s[a].priority)
  }

  lemma PrefixGrows(s: seq<Rule>, i: nat)
    requires PrefixDone(s, i) && i + 1 < |s|
    ensures PrefixDone(Inner(s, i, i + 1), i + 1)
  {
    var t := Inner(s, i, i + 1);
    InnerSelects(s, i, i + 1);
    forall a | 0 <= a < i + 1 ensures AtMost(t, a, t[a].priority) {
      if a < i {
        assert AtMost(s, a, s[a].priority);
        InnerKeepsPrefix(s, i, i + 1, s[a].priority);
        assert forall k | 0 <= k < i :: t[k] == t[..i][k] == s[..i][k] == s[k];
      }
    }
  }

  lemma {:induction false} OuterSorts(s: seq<Rule>, i: nat)
    requires PrefixDone(s, i)
    ensures Sorted(Outer(s, i))
    decreases |s| - i
  {
    if i + 1 < |s| {
      hide PrefixDone, Sorted, Inner;
      PrefixGrows(s, i);
      OuterSorts(Inner(s, i, i + 1), i + 1);
    } else {
      forall a, b | 0 <= a < b < |s| ensures s[a].priority >= s[b].priority { assert AtMost(s, a, s[a].priority); }
    }
  }

  lemma ExchangeSortSorts(s: seq<Rule>)
    ensures Sorted(ExchangeSort(s)) && multiset(ExchangeSort(s)) == multiset(s)
  {
    OuterSorts(s, 0);
    OuterPermutes(s, 0);
  }

  // ---------- Insertion ----------

  /** AddRule's loop: move the rule at `i` forward past all rules of lower priority. */
  function Bubble(s: seq<Rule>, i: nat): (r: seq<Rule>)
    requires i < |s|
    ensures |r| == |s|
    decreases i
  {
    if i > 0 && s[i].priority > s[i - 1].priority then Bubble(Swap(s, i, i - 1), i - 1) else s
  }

  function Added(s: seq<Rule>, r: Rule): (t: seq<Rule>)
    ensures |t| == |s| + 1
  {
    Bubble(s + [r], |s|)
  }

  ghost predicate AtLeast(s: seq<Rule>, p: int) {
    forall k | 0 <= k < |s| :: s[k].priority >= p
  }

  /** `k` is where a rule of priority `p` belongs: behind all rules of the same or higher priority. */
  ghost predicate Place(s: seq<Rule>, k: nat, p: int) {
    k <= |s| && AtLeast(s[..k], p) && forall i | k <= i < |s| :: s[i].priority < p
  }

  lemma SwapBack(most: seq<Rule>, last: Rule, right: seq<Rule>, r: Rule)
    ensures Swap(most + [last] + [r] + right, |most| + 1, |most|) == most + [r] + ([last] + right)
  {
  }

  lemma Reassociate(most: seq<Rule>, last: Rule, right: seq<Rule>, r: Rule, k: nat)
    requires k <= |most|
    ensures var left := most + [last];
      && left[..k] == most[..k] && left[k..] == most[k..] + [last]
      && most[..k] + [r] + most[k..] + ([last] + right) == left[..k] + [r] + left[k..] + right
  {
  }

  /** One turn of the loop past a rule of lower priority. */
  lemma BubbleOne(most: seq<Rule>, last: Rule, right: seq<Rule>, r: Rule)
    requires r.priority > last.priority
    ensures Bubble(most + [last] + [r] + right, |most| + 1) == Bubble(most + [r] + ([last] + right), |most|)
  {
    var s := most + [last] + [r] + right;
    assert s[|most|] == last && s[|most| + 1] == r;
    SwapBack(most, last, right, r);
  }

  lemma BubbleStays(left: seq<Rule>, right: seq<Rule>, r: Rule)
    requires left == [] || r.priority <= left[|left| - 1].priority
    ensures Bubble(left + [r] + right, |left|) == left + [r] + right
  {
  }

  lemma PlaceExtends(most: seq<Rule>, last: Rule, k: nat, p: int)
    requires Place(most, k, p) && last.priority < p
    ensures Place(most + [last], k, p)
  {
    assert (most + [last])[..k] == most[..k];
  }

  lemma {:induction false} BubbleInserts(left: seq<Rule>, right: seq<Rule>, r: Rule) returns (k: nat)
    requires Sorted(left) && forall i | 0 <= i < |right| :: right[i].priority < r.priority
    ensures Place(left, k, r.priority) && Bubble(left + [r] + right, |left|) == left[..k] + [r] + left[k..] + right
    decreases |left|
  {
    if left != [] && r.priority > left[|left| - 1].priority {
      var most, last := left[..|left| - 1], left[|left| - 1];
      assert left == most + [last];
      BubbleOne(most, last, right, r);
      hide Place, Swap, Bubble;
      k := BubbleInserts(most, [last] + right, r);
      PlaceExtends(most, last, k, r.priority);
      Reassociate(most, last, right, r, k);
    } else {
      k := |left|;
      assert left[..k] == left && left[k..] == [];
      BubbleStays(left, right, r);
      hide Bubble;
      assert left + [] == left;
    }
  }

  /** AddRule keeps a sorted list sorted and puts the new rule behind its equals. */
  lemma AddedPlace(s: seq<Rule>, r: Rule) returns (k: nat)
    requires Sorted(s)
    ensures Place(s, k, r.priority) && Added(s, r) == s[..k] + [r] + s[k..] && Sorted(Added(s, r))
  {
    k := BubbleInserts(s, [], r);
    assert s + [r] + [] == s + [r];
    var t := s[..k] + [r] + s[k..];
    assert t + [] == t;
    InsertedSorted(s, k, r);
  }

  lemma InsertedSorted(s: seq<Rule>, k: nat, r: Rule)
    requires Sorted(s) && Place(s, k, r.priority)
    ensures Sorted(s[..k] + [r] + s[k..])
  {
    var t := s[..k] + [r] + s[k..];
    forall i, j | 0 <= i < j < |t| ensures t[i].priority >= t[j].priority {
      if i < k { assert t[i] == s[..k][i]; }
      if j > k { assert t[j] == s[j - 1]; }
    }
  }

  // ---------- Operations ----------

  datatype Op = Add(rule: Rule) | Remove(id: string) | Update(rule: Rule)

  /** The first rule with this id, or the length if there is none. */
  function IndexOf(s: seq<Rule>, id: string): (i: nat)
    ensures i <= |s| && (i < |s| ==> s[i].id == id) && forall k | 0 <= k < i :: s[k].id != id
  {
    if s == [] then 0 else if s[0].id == id then 0 else 1 + IndexOf(s[1..], id)
  }

  function Step(s: seq<Rule>, op: Op): seq<Rule> {
    match op
    case Add(r) => Added(s, r)
    case Remove(id) => var i := IndexOf(s, id); if i < |s| then s[..i] + s[i + 1..] else s
    case Update(r) => var i := IndexOf(s, r.id); if i < |s| then ExchangeSort(s[i := r]) else s
  }

  /** NewRuleEngine, then the operations in turn. */
  function Run(initial: seq<Rule>, ops: seq<Op>): seq<Rule> {
    if ops == [] then ExchangeSort(initial) else Step(Run(initial, ops[..|ops| - 1]), ops[|ops| - 1])
  }

  lemma StepSorted(s: seq<Rule>, op: Op)
    requires Sorted(s)
    ensures Sorted(Step(s, op))
  {
    match op
    case Add(r) => var k := AddedPlace(s, r);
    case Remove(id) =>
    case Update(r) =>
      var i := IndexOf(s, r.id);
      if i < |s| { ExchangeSortSorts(s[i := r]); }
  }

  lemma {:induction false} RunSorted(initial: seq<Rule>, ops: seq<Op>)
    ensures Sorted(Run(initial, ops))
  {
    if ops == [] {
      ExchangeSortSorts(initial);
    } else {
      RunSorted(initial, ops[..|ops| - 1]);
      StepSorted(Run(initial, ops[..|ops| - 1]), ops[|ops| - 1]);
    }
  }

  // ---------- The intended collection ----------

  /** `r` is a rule of the bag with this id, of the highest priority such a rule has. */
  ghost predicate Topmost(bag: multiset<Rule>, id: string, r: Rule) {
    r in bag && r.id == id && forall x | x in bag && x.id == id :: x.priority <= r.priority
  }

  /** One topmost rule with the id is replaced by the rules of `put`; without such a rule nothing changes. */
  ghost predicate Replaced(before: multiset<Rule>, id: string, put: multiset<Rule>, after: multiset<Rule>) {
    if exists x :: x in before && x.id == id
    then exists r :: Topmost(before, id, r) && after == before - multiset{r} + put
    else after == before
  }

  /** What an operation is meant to do to the collection. Ids may repeat. */
  ghost predicate Intends(before: multiset<Rule>, op: Op, after: multiset<Rule>) {
    match op
    case Add(r) => after == before + multiset{r}
    case Remove(id) => Replaced(before, id, multiset{}, after)
    case Update(r) => Replaced(before, r.id, multiset{r}, after)
  }

  /** On a sorted list the first rule with an id is topmost. */
  lemma FirstIsTopmost(s: seq<Rule>, id: string)
    requires Sorted(s)
    ensures var i := IndexOf(s, id);
      && (i < |s| ==> Topmost(multiset(s), id, s[i]))
      && (i == |s| ==> forall x | x in multiset(s) :: x.id != id)
  {
    var i := IndexOf(s, id);
    if i < |s| {
      assert s[i] in multiset(s);
      forall x | x in multiset(s) && x.id == id ensures x.priority <= s[i].priority {
        var k :| 0 <= k < |s| && s[k] == x;
        assert i <= k;
      }
    } else {
      forall x | x in multiset(s) ensures x.id != id {
        var k :| 0 <= k < |s| && s[k] == x;
      }
    }
  }

  lemma RemoveAt(s: seq<Rule>, i: nat, r: Rule)
    requires i < |s|
    ensures multiset(s[..i] + s[i + 1..]) == multiset(s) - multiset{s[i]}
    ensures multiset(s[i := r]) == multiset(s) - multiset{s[i]} + multiset{r}
  {
    assert s == s[..i] + [s[i]] + s[i + 1..];
    assert s[i := r] == s[..i] + [r] + s[i + 1..];
  }

  lemma AddedPermutes(s: seq<Rule>, r: Rule)
    requires Sorted(s)
    ensures multiset(Added(s, r)) == multiset(s) + multiset{r}
  {
    var k := AddedPlace(s, r);
    assert s == s[..k] + s[k..];
  }

  lemma FirstReplaced(s: seq<Rule>, id: string, put: multiset<Rule>, after: multiset<Rule>)
    requires Sorted(s)
    requires var i := IndexOf(s, id); after == if i < |s| then multiset(s) - multiset{s[i]} + put else multiset(s)
    ensures Replaced(multiset(s), id, put, after)
  {
    FirstIsTopmost(s, id);
    var i := IndexOf(s, id);
    if i < |s| { assert s[i] in multiset(s); }
    hide Topmost, IndexOf;
  }

  lemma RemoveIntended(s: seq<Rule>, id: string)
    requires Sorted(s)
    ensures Replaced(multiset(s), id, multiset{}, multiset(Step(s, Remove(id))))
  {
    hide Replaced, Sorted, IndexOf;
    var i := IndexOf(s, id);
    if i < |s| { RemoveAt(s, i, s[i]); }
    FirstReplaced(s, id, multiset{}, multiset(Step(s, Remove(id))));
  }

  lemma UpdateIntended(s: seq<Rule>, u: Rule)
    requires Sorted(s)
    ensures Replaced(multiset(s), u.id, multiset{u}, multiset(Step(s, Update(u))))
  {
    hide Replaced, Sorted, IndexOf, ExchangeSort;
    var i := IndexOf(s, u.id);
    if i < |s| {
      RemoveAt(s, i, u);
      ExchangeSortSorts(s[i := u]);
    }
    FirstReplaced(s, u.id, multiset{u}, multiset(Step(s, Update(u))));
  }

  /** Each operation does to the list what it is meant to do to the collection, for any ids. */
  lemma StepIntended(s: seq<Rule>, op: Op)
    requires Sorted(s)
    ensures Intends(multiset(s), op, multiset(Step(s, op)))
  {
    hide Added, ExchangeSort, Replaced;
    match op
    case Add(r) => AddedPermutes(s, r);
    case Remove(id) => RemoveIntended(s, id);
    case Update(u) => UpdateIntended(s, u);
  }

  lemma RunStep(initial: seq<Rule>, ops: seq<Op>, k: nat)
    requires k < |ops|
    ensures Run(initial, ops[..k + 1]) == Step(Run(initial, ops[..k]), ops[k])
  {
    assert ops[..k + 1][..k] == ops[..k];
  }

  /** For every initial list and every sequence of operations, repeated ids included: the list starts as a permutation
      of the given rules, each operation does to the collection what it is meant to, and the list is
      priority-descending. */
  lemma RunIntended(initial: seq<Rule>, ops: seq<Op>)
    ensures multiset(Run(initial, [])) == multiset(initial)
    ensures forall k | 0 <= k <= |ops| :: Sorted(Run(initial, ops[..k]))
    ensures forall k | 0 <= k < |ops| ::
              Intends(multiset(Run(initial, ops[..k])), ops[k], multiset(Run(initial, ops[..k + 1])))
  {
    hide Sorted, Intends, Step;
    ExchangeSortSorts(initial);
    forall k | 0 <= k <= |ops| ensures Sorted(Run(initial, ops[..k])) { RunSorted(initial, ops[..k]); }
    forall k | 0 <= k < |ops|
      ensures Intends(multiset(Run(initial, ops[..k])), ops[k], multiset(Run(initial, ops[..k + 1])))
    {
      RunStep(initial, ops, k);
      StepIntended(Run(initial, ops[..k]), ops[k]);
    }
  }

  // ---------- Matching ----------

  predicate Accepts(hits: Rule -> bool, r: Rule) {
    r.enabled && hits(r)
  }

  function FirstHit(s: seq<Rule>, hits: Rule -> bool): Option<Rule> {
    if s == [] then None else if Accepts(hits, s[0]) then Some(s[0]) else FirstHit(s[1..], hits)
  }

  lemma {:induction false} FirstHitConcat(s: seq<Rule>, t: seq<Rule>, hits: Rule -> bool)
    ensures FirstHit(s + t, hits) == if FirstHit(s, hits).Some? then FirstHit(s, hits) else FirstHit(t, hits)
  {
    if s == [] {
      assert s + t == t;
    } else {
      assert (s + t)[1..] == s[1..] + t;
      FirstHitConcat(s[1..], t, hits);
    }
  }

  /** On a sorted list the first match is an enabled matching rule of the highest priority, if there is any match. */
  lemma {:induction false} FirstHitIsBest(s: seq<Rule>, hits: Rule -> bool)
    requires Sorted(s)
    ensures match FirstHit(s, hits)
            case None => forall i | 0 <= i < |s| :: !(s[i].enabled && hits(s[i]))
            case Some(r) => r.enabled && hits(r) && (exists i :: 0 <= i < |s| && s[i] == r)
                            && forall i | 0 <= i < |s| && s[i].enabled && hits(s[i]) :: s[i].priority <= r.priority
  {
    if s != [] && !Accepts(hits, s[0]) {
      var t := s[1..];
      FirstHitIsBest(t, hits);
      forall i | 1 <= i < |s| ensures s[i] == t[i - 1] {}
      if FirstHit(t, hits).Some? {
        var i :| 0 <= i < |t| && t[i] == FirstHit(t, hits).value;
        assert s[i + 1] == t[i];
      }
    } else if s != [] {
      assert s[0] == FirstHit(s, hits).value;
    }
  }

  function AddAll(rs: seq<Rule>): seq<Rule> {
    if rs == [] then [] else Added(AddAll(rs[..|rs| - 1]), rs[|rs| - 1])
  }

  lemma {:induction false} AddAllSorted(rs: seq<Rule>)
    ensures Sorted(AddAll(rs))
  {
    if rs != [] {
      AddAllSorted(rs[..|rs| - 1]);
      var k := AddedPlace(AddAll(rs[..|rs| - 1]), rs[|rs| - 1]);
    }
  }

  /** A new rule takes over exactly when it accepts and beats the current match strictly. */
  lemma AddedFirstHit(s: seq<Rule>, r: Rule, hits: Rule -> bool)
    requires Sorted(s)
    ensures var f := FirstHit(s, hits);
      FirstHit(Added(s, r), hits) == if Accepts(hits, r) && (f.None? || f.value.priority < r.priority) then Some(r)
          else f
  {
    hide Added, FirstHit;
    var k := AddedPlace(s, r);
    var left, right := s[..k], s[k..];
    assert left + [r] + right == left + ([r] + right) && left + right == s;
    FirstHitConcat(left, [r] + right, hits);
    FirstHitConcat([r], right, hits);
    FirstHitConcat(left, right, hits);
    FirstHitOne(r, hits);
    FirstHitIsBest(left, hits);
    FirstHitIsBest(right, hits);
  }

  lemma FirstHitOne(r: Rule, hits: Rule -> bool)
    ensures FirstHit([r], hits) == if Accepts(hits, r) then Some(r) else None
  {
    assert [r][1..] == [];
  }

  /** Rule `k` accepts, no accepting rule has a higher priority, and no earlier one has the same. */
  ghost predicate Winner(rs: seq<Rule>, hits: Rule -> bool, k: nat)
    requires k < |rs|
  {
    && Accepts(hits, rs[k])
    && forall j | 0 <= j < |rs| && Accepts(hits, rs[j]) ::
         rs[j].priority <= rs[k].priority && (j < k ==> rs[j].priority < rs[k].priority)
  }

  ghost predicate NoneAccepts(rs: seq<Rule>, hits: Rule -> bool) {
    forall j | 0 <= j < |rs| :: !Accepts(hits, rs[j])
  }

  lemma OneMore(rs: seq<Rule>, hits: Rule -> bool, r: Rule)
    ensures NoneAccepts(rs, hits) ==> if Accepts(hits, r) then Winner(rs + [r], hits, |rs|)
            else NoneAccepts(rs + [r], hits)
    ensures forall k | 0 <= k < |rs| && Winner(rs, hits, k) ::
              Winner(rs + [r], hits, if Accepts(hits, r) && rs[k].priority < r.priority then |rs| else k)
  {
    hide Accepts;
    var t := rs + [r];
    forall j | 0 <= j < |t| ensures t[j] == if j < |rs| then rs[j] else r {}
  }

  /** Rules only ever added: of the accepting rules with the highest priority, the one added first wins. */
  lemma {:induction false} EarliestOfHighestWins(rs: seq<Rule>, hits: Rule -> bool)
    ensures match FirstHit(AddAll(rs), hits)
            case None => NoneAccepts(rs, hits)
            case Some(r) => exists k :: 0 <= k < |rs| && Winner(rs, hits, k) && rs[k] == r
  {
    if rs != [] {
      var rest, last := rs[..|rs| - 1], rs[|rs| - 1];
      EarliestOfHighestWins(rest, hits);
      AddAllSorted(rest);
      hide Accepts, Added, FirstHit, Winner, NoneAccepts;
      AddedFirstHit(AddAll(rest), last, hits);
      OneMore(rest, hits, last);
      assert rs == rest + [last];
      if FirstHit(AddAll(rest), hits).Some? {
        var k :| 0 <= k < |rest| && Winner(rest, hits, k) && rest[k] == FirstHit(AddAll(rest), hits).value;
        var k' := if Accepts(hits, last) && rest[k].priority < last.priority then |rest| else k;
        assert Winner(rs, hits, k') && rs[k'] == FirstHit(AddAll(rs), hits).value;
      } else if Accepts(hits, last) {
        assert Winner(rs, hits, |rest|);
      }
    }
  }

  // ---------- Equal priorities ----------

  /** The rules of one priority in list order. */
  function Ties(s: seq<Rule>, p: int): seq<Rule> {
    if s == [] then [] else (if s[0].priority == p then [s[0]] else []) + Ties(s[1..], p)
  }

  /** The lists order the rules of each priority alike. */
  ghost predicate SameTies(s: seq<Rule>, t: seq<Rule>) {
    forall p :: Ties(s, p) == Ties(t, p)
  }

  lemma {:induction false} TiesConcat(s: seq<Rule>, t: seq<Rule>, p: int)
    ensures Ties(s + t, p) == Ties(s, p) + Ties(t, p)
  {
    if s == [] {
      assert s + t == t;
    } else {
      assert (s + t)[1..] == s[1..] + t;
      TiesConcat(s[1..], t, p);
      Associates(if s[0].priority == p then [s[0]] else [], Ties(s[1..], p), Ties(t, p));
    }
  }

  lemma TiesOne(r: Rule, p: int)
    ensures Ties([r], p) == if r.priority == p then [r] else []
  {
  }

  lemma TiesParts(a: seq<Rule>, x: Rule, m: seq<Rule>, y: Rule, b: seq<Rule>, p: int)
    ensures Ties(a + [x] + m + [y] + b, p) == Ties(a, p) + Ties([x], p) + Ties(m, p) + Ties([y], p) + Ties(b, p)
  {
    TiesConcat(a + [x] + m + [y], b, p);
    TiesConcat(a + [x] + m, [y], p);
    TiesConcat(a + [x], m, p);
    TiesConcat(a, [x], p);
  }

  ghost predicate Only<T(!new)>(m: seq<T>, x: T) {
    forall k | 0 <= k < |m| :: m[k] == x
  }

  /** Every rule with the priority of `x` is `x`. */
  ghost predicate OnlyAmongEquals(m: seq<Rule>, x: Rule) {
    forall k | 0 <= k < |m| && m[k].priority == x.priority :: m[k] == x
  }

  lemma {:induction false} TiesOnly(m: seq<Rule>, x: Rule)
    ensures Only(Ties(m, x.priority), x) <==> OnlyAmongEquals(m, x)
  {
    if m != [] {
      var rest, p := m[1..], x.priority;
      TiesOnly(rest, x);
      OnlyHead([m[0]], Ties(rest, p), x);
      assert Only([m[0]], x) <==> m[0] == x by { assert [m[0]][0] == m[0]; }
      assert [] + Ties(rest, p) == Ties(rest, p);
      assert OnlyAmongEquals(m, x) <==> (m[0].priority == p ==> m[0] == x) && OnlyAmongEquals(rest, x) by {
        forall k | 0 < k < |m| ensures m[k] == rest[k - 1] {}
        forall k | 0 <= k < |rest| ensures rest[k] == m[k + 1] {}
      }
    }
  }

  lemma OnlyHead<T(!new)>(a: seq<T>, b: seq<T>, x: T)
    ensures Only(a + b, x) <==> Only(a, x) && Only(b, x)
  {
    forall k | 0 <= k < |a| ensures (a + b)[k] == a[k] {}
    forall k | 0 <= k < |b| ensures (a + b)[|a| + k] == b[k] {}
  }

  lemma Associates<T>(a: seq<T>, b: seq<T>, c: seq<T>)
    ensures a + (b + c) == (a + b) + c
  {
  }

  /** Moving an element behind a list changes nothing exactly when the list holds only that element. */
  lemma {:induction false} Commutes<T(!new)>(x: T, m: seq<T>)
    ensures [x] + m == m + [x] <==> Only(m, x)
  {
    if m != [] {
      var first, rest := m[0], m[1..];
      assert m == [first] + rest;
      Commutes(x, rest);
      OnlyHead([first], rest, x);
      assert [x] + m == [x] + ([first] + rest) && m + [x] == [first] + (rest + [x]);
      if first == x {
        assert [x] + m == [x] + ([x] + rest) + [] && m + [x] == [x] + (rest + [x]) + [];
        Cancels([x], [x] + rest, rest + [x], []);
      } else {
        assert ([x] + m)[0] != (m + [x])[0];
      }
    }
  }

  lemma Cancels<T>(a: seq<T>, u: seq<T>, v: seq<T>, b: seq<T>)
    requires |u| == |v|
    ensures a + u + b == a + v + b <==> u == v
  {
    if a + u + b == a + v + b {
      assert u == (a + u + b)[|a|..|a| + |u|];
      assert v == (a + v + b)[|a|..|a| + |v|];
    }
  }

  lemma Regroups<T>(a: seq<T>, x: seq<T>, m: seq<T>, b: seq<T>)
    ensures a + x + m + [] + b == a + (x + m) + b && a + [] + m + x + b == a + (m + x) + b
    ensures a + [] + [] + x + b == a + x + [] + [] + b
  {
  }

  lemma {:induction false} NoTies(s: seq<Rule>, p: int)
    requires forall r | r in s :: r.priority != p
    ensures Ties(s, p) == []
  {
    if s != [] { NoTies(s[1..], p); }
  }

  /** The exchange leaves rules of other priorities in their order. */
  lemma OtherTies(a: seq<Rule>, x: Rule, m: seq<Rule>, y: Rule, b: seq<Rule>, q: int)
    requires x.priority < y.priority && q != x.priority && forall r | r in m :: r.priority <= x.priority
    ensures Ties(a + [x] + m + [y] + b, q) == Ties(a + [y] + m + [x] + b, q)
  {
    TiesParts(a, x, m, y, b, q);
    TiesParts(a, y, m, x, b, q);
    TiesOne(x, q);
    TiesOne(y, q);
    if q == y.priority {
      NoTies(m, q);
      hide Ties;
      Regroups(Ties(a, q), [y], [], Ties(b, q));
    }
  }

  /** One exchange of the sort keeps the order of equal rules exactly when every rule strictly between with the priority
      of the one moved back is that same rule; with distinct rules, when there is none. */
  lemma ExchangeKeepsTiesIff(a: seq<Rule>, x: Rule, m: seq<Rule>, y: Rule, b: seq<Rule>)
    requires x.priority < y.priority && forall r | r in m :: r.priority <= x.priority
    ensures SameTies(a + [x] + m + [y] + b, a + [y] + m + [x] + b) <==>
            OnlyAmongEquals(m, x)
  {
    var s, t, p := a + [x] + m + [y] + b, a + [y] + m + [x] + b, x.priority;
    TieOrderAt(a, x, m, y, b);
    TiesOnly(m, x);
    hide Ties;
    forall q ensures q != p ==> Ties(s, q) == Ties(t, q) { if q != p { OtherTies(a, x, m, y, b, q); } }
    assert SameTies(s, t) <==> Ties(s, p) == Ties(t, p);
  }

  lemma TieOrderAt(a: seq<Rule>, x: Rule, m: seq<Rule>, y: Rule, b: seq<Rule>)
    requires x.priority < y.priority
    ensures var p := x.priority;
      Ties(a + [x] + m + [y] + b, p) == Ties(a + [y] + m + [x] + b, p) <==> Only(Ties(m, p), x)
  {
    var p := x.priority;
    TiesParts(a, x, m, y, b, p);
    TiesParts(a, y, m, x, b, p);
    TiesOne(x, p);
    TiesOne(y, p);
    hide Ties;
    Regroups(Ties(a, p), [x], Ties(m, p), Ties(b, p));
    Cancels(Ties(a, p), [x] + Ties(m, p), Ties(m, p) + [x], Ties(b, p));
    Commutes(x, Ties(m, p));
  }

  /** In terms of the sort: the exchange at places i and j of its inner loop. */
  lemma SwapKeepsTiesIff(s: seq<Rule>, i: nat, j: nat)
    requires i < j < |s| && s[i].priority < s[j].priority && forall k | i < k < j :: s[k].priority <= s[i].priority
    ensures SameTies(s, Swap(s, i, j)) <==> forall k | i < k < j && s[k].priority == s[i].priority :: s[k] == s[i]
  {
    var a, m, b := s[..i], s[i + 1..j], s[j + 1..];
    assert s == a + [s[i]] + m + [s[j]] + b;
    assert Swap(s, i, j) == a + [s[j]] + m + [s[i]] + b;
    ExchangeKeepsTiesIff(a, s[i], m, s[j], b);
    forall k | i < k < j ensures s[k] == m[k - i - 1] {}
    forall k | 0 <= k < |m| ensures m[k] == s[i + 1 + k] {}
  }

  /** A sorted list is left alone, so an update that keeps the list sorted keeps all ties. */
  lemma {:induction false} SortedStays(s: seq<Rule>, i: nat)
    requires Sorted(s)
    ensures Outer(s, i) == s && ExchangeSort(s) == Outer(s, 0)
    decreases |s| - i
  {
    if i + 1 < |s| {
      InnerStays(s, i, i + 1);
      SortedStays(s, i + 1);
    }
  }

  lemma {:induction false} InnerStays(s: seq<Rule>, i: nat, j: nat)
    requires Sorted(s) && i < j <= |s|
    ensures Inner(s, i, j) == s
    decreases |s| - j
  {
    if j < |s| { InnerStays(s, i, j + 1); }
  }

  // ---------- What an update does to the list ----------

  lemma {:induction false} InnerSkips(s: seq<Rule>, i: nat, j: nat, k: nat)
    requires i < j <= k <= |s| && forall x | j <= x < k :: s[x].priority <= s[i].priority
    ensures Inner(s, i, j) == Inner(s, i, k)
    decreases k - j
  {
    if j < k { InnerSkips(s, i, j + 1, k); }
  }

  lemma {:induction false} OuterSkips(s: seq<Rule>, i: nat, k: nat)
    requires i <= k <= |s| && forall x, y | i <= x < k && x < y < |s| :: s[y].priority <= s[x].priority
    ensures Outer(s, i) == Outer(s, k)
    decreases k - i
  {
    if i < k && i + 1 < |s| {
      InnerSkips(s, i, i + 1, |s|);
      OuterSkips(s, i + 1, k);
    }
  }

  /** A rule that has come to stand behind the rules `m`, all of lower or equal priority, after the rest of the sort: it
      takes the first place of a lower priority, and the rule from there is carried on in its stead. */
  function Carry(c: Rule, m: seq<Rule>): (r: seq<Rule>)
    ensures |r| == |m| + 1
    decreases |m|
  {
    if m == [] then [c]
    else if c.priority > m[0].priority then [c] + Carry(m[0], m[1..])
    else [m[0]] + Carry(c, m[1..])
  }

  /** A rule that stands before the rules `d`, after the sort: behind those of higher priority. */
  function Sink(r: Rule, d: seq<Rule>): seq<Rule> {
    if d == [] then [r] else if r.priority < d[0].priority then [d[0]] + Sink(r, d[1..]) else [r] + d
  }

  lemma SwapParts(a: seq<Rule>, x: Rule, m: seq<Rule>, c: Rule, b: seq<Rule>)
    ensures Swap(a + [x] + m + [c] + b, |a|, |a| + 1 + |m|) == a + [c] + m + [x] + b
  {
  }

  /** Where the parts of a list stand. */
  lemma FirstAt<T>(a: seq<T>, x: T, m: seq<T>, c: T, b: seq<T>)
    ensures var s := a + [x] + m + [c] + b;
            |s| == |a| + |m| + |b| + 2 && s[|a|] == x && s[|a| + 1 + |m|] == c
  {
  }

  lemma MiddleAt<T>(a: seq<T>, x: T, m: seq<T>, c: T, b: seq<T>, k: nat)
    requires k < |m|
    ensures (a + [x] + m + [c] + b)[|a| + 1 + k] == m[k]
  {
  }

  lemma LastAt<T>(a: seq<T>, x: T, m: seq<T>, c: T, b: seq<T>, k: nat)
    requires k < |b|
    ensures (a + [x] + m + [c] + b)[|a| + |m| + 2 + k] == b[k]
  {
  }

  /** The inner loop when one rule alone beats the one at `i`. */
  lemma OneExchange(s: seq<Rule>, i: nat, j: nat)
    requires i < j < |s| && s[i].priority < s[j].priority
    requires forall k | i < k < j :: s[k].priority <= s[i].priority
    requires forall k | j < k < |s| :: s[k].priority <= s[j].priority
    ensures Inner(s, i, i + 1) == Swap(s, i, j)
  {
    hide Inner, Swap;
    var t := Swap(s, i, j);
    SwapAt(s, i, j);
    InnerSkips(s, i, i + 1, j);
    InnerStep(s, i, j);
    InnerSkips(t, i, j + 1, |t|);
    InnerEnd(t, i);
  }

  lemma SwapAt(s: seq<Rule>, i: nat, j: nat)
    requires i < j < |s|
    ensures var t := Swap(s, i, j); t[i] == s[j] && t[j] == s[i] && forall k | j < k < |s| :: t[k] == s[k]
  {
  }

  lemma InnerStep(s: seq<Rule>, i: nat, j: nat)
    requires i < j < |s| && s[i].priority < s[j].priority
    ensures Inner(s, i, j) == Inner(Swap(s, i, j), i, j + 1)
  {
    hide Swap;
  }

  lemma InnerEnd(s: seq<Rule>, i: nat)
    requires i < |s|
    ensures Inner(s, i, |s|) == s
  {
  }

  lemma PartsBelow(a: seq<Rule>, x: Rule, m: seq<Rule>, c: Rule, b: seq<Rule>)
    requires AtMost(m, 0, x.priority) && AtMost(b, 0, c.priority)
    ensures var s := a + [x] + m + [c] + b;
      && (forall k | |a| < k < |a| + 1 + |m| :: s[k].priority <= x.priority)
      && (forall k | |a| + 1 + |m| < k < |s| :: s[k].priority <= c.priority)
  {
    var s := a + [x] + m + [c] + b;
    forall k | |a| < k < |a| + 1 + |m| ensures s[k].priority <= x.priority { MiddleAt(a, x, m, c, b, k - |a| - 1); }
    forall k | |a| + 1 + |m| < k < |s| ensures s[k].priority <= c.priority { LastAt(a, x, m, c, b, k - |a| - |m| - 2); }
  }

  /** One turn of the outer loop at the place of `x`. */
  lemma CarryTurn(a: seq<Rule>, x: Rule, m: seq<Rule>, c: Rule, b: seq<Rule>)
    requires AtMost(m, 0, x.priority) && x.priority <= c.priority && AtMost(b, 0, c.priority)
    ensures Inner(a + [x] + m + [c] + b, |a|, |a| + 1) ==
            if x.priority < c.priority then a + [c] + m + [x] + b else a + [x] + m + [c] + b
  {
    var s := a + [x] + m + [c] + b;
    FirstAt(a, x, m, c, b);
    PartsBelow(a, x, m, c, b);
    SwapParts(a, x, m, c, b);
    CarryTurnIn(s, |a|, |a| + 1 + |m|);
    hide Swap, Inner, AtMost;
  }

  lemma CarryTurnIn(s: seq<Rule>, i: nat, j: nat)
    requires i < j < |s| && s[i].priority <= s[j].priority
    requires forall k | i < k < j :: s[k].priority <= s[i].priority
    requires forall k | j < k < |s| :: s[k].priority <= s[j].priority
    ensures Inner(s, i, i + 1) == if s[i].priority < s[j].priority then Swap(s, i, j) else s
  {
    hide Swap, Inner;
    if s[i].priority < s[j].priority {
      OneExchange(s, i, j);
    } else {
      NoExchange(s, i);
    }
  }

  lemma NoExchange(s: seq<Rule>, i: nat)
    requires i < |s| && forall k | i < k < |s| :: s[k].priority <= s[i].priority
    ensures Inner(s, i, i + 1) == s
  {
    hide Inner;
    InnerSkips(s, i, i + 1, |s|);
    InnerEnd(s, i);
  }

  lemma SortedParts(a: seq<Rule>, x: Rule, m: seq<Rule>, b: seq<Rule>)
    requires Sorted(a + ([x] + m) + b)
    ensures AtMost(m, 0, x.priority) && AtMost(b, 0, x.priority) && Sorted(a + [x] + m + b) && Sorted(a + m + b)
  {
    var s := a + [x] + m + b;
    assert s == a + ([x] + m) + b;
    forall k | 0 <= k < |m| ensures m[k].priority <= x.priority { assert s[|a|] == x && s[|a| + 1 + k] == m[k]; }
    forall k | 0 <= k < |b| ensures b[k].priority <= x.priority { assert s[|a|] == x && s[|a| + 1 + |m| + k] == b[k]; }
    DroppedSorted(a, x, m, b);
  }

  lemma DroppedSorted(a: seq<Rule>, x: Rule, m: seq<Rule>, b: seq<Rule>)
    requires Sorted(a + [x] + m + b)
    ensures Sorted(a + m + b)
  {
    var s, t := a + [x] + m + b, a + m + b;
    forall i, j | 0 <= i < j < |t| ensures t[i].priority >= t[j].priority {
      var i0 := if i < |a| then i else i + 1;
      var j0 := if j < |a| then j else j + 1;
      assert t[i] == s[i0] && t[j] == s[j0];
    }
  }

  lemma InsertSorted(a: seq<Rule>, c: Rule, b: seq<Rule>)
    requires Sorted(a + b) && AtLeast(a, c.priority) && AtMost(b, 0, c.priority)
    ensures Sorted(a + [c] + b)
  {
    var s, t := a + b, a + [c] + b;
    forall k | 0 <= k < |t| && k != |a| ensures t[k] == s[if k < |a| then k else k - 1] {}
    forall k | 0 <= k < |a| ensures t[k] == a[k] {}
    forall k | |a| < k < |t| ensures t[k] == b[k - |a| - 1] {}
  }

  lemma AtLeastMore(a: seq<Rule>, x: Rule, p: int)
    requires AtLeast(a, p) && x.priority >= p
    ensures AtLeast(a + [x], p)
  {
  }

  lemma {:induction false} CarryRun(a: seq<Rule>, m: seq<Rule>, c: Rule, b: seq<Rule>)
    requires Sorted(a + m + b) && AtLeast(a, c.priority) && AtMost(m, 0, c.priority) && AtMost(b, 0, c.priority)
    ensures Outer(a + m + [c] + b, |a|) == a + Carry(c, m) + b
    decreases |m|, 0
  {
    if m == [] {
      assert a + m == a;
      InsertSorted(a, c, b);
      SortedStays(a + [c] + b, |a|);
    } else {
      var x, rest := m[0], m[1..];
      assert m == [x] + rest;
      SortedParts(a, x, rest, b);
      CarryTurn(a, x, rest, c, b);
      Regrouped(a, x, rest, c, b, Carry(x, rest));
      Regrouped(a, x, rest, c, b, Carry(c, rest));
      assert x.priority <= c.priority;
      if x.priority < c.priority {
        CarryOver(a, x, rest, c, b);
      } else {
        CarryPast(a, x, rest, c, b);
      }
    }
  }

  lemma Regrouped(a: seq<Rule>, x: Rule, m: seq<Rule>, c: Rule, b: seq<Rule>, u: seq<Rule>)
    ensures a + ([x] + m) + [c] + b == a + [x] + m + [c] + b
    ensures a + ([c] + u) + b == (a + [c]) + u + b && a + ([x] + u) + b == (a + [x]) + u + b
  {
  }

  /** The place of `x` goes to `c`, and `x` is carried on. */
  lemma {:induction false} CarryOver(a: seq<Rule>, x: Rule, m: seq<Rule>, c: Rule, b: seq<Rule>)
    requires Sorted(a + m + b) && AtLeast(a, c.priority) && x.priority < c.priority
    requires AtMost(m, 0, x.priority) && AtMost(b, 0, x.priority)
    ensures Outer(a + [c] + m + [x] + b, |a| + 1) == a + [c] + Carry(x, m) + b
    decreases |m|, 1
  {
    InsertSorted(a, c, m + b);
    assert a + [c] + (m + b) == a + [c] + m + b && a + (m + b) == a + m + b;
    AtLeastMore(a, c, x.priority);
    CarryRun(a + [c], m, x, b);
  }

  /** The place of `x` stays its own, and `c` is carried on. */
  lemma {:induction false} CarryPast(a: seq<Rule>, x: Rule, m: seq<Rule>, c: Rule, b: seq<Rule>)
    requires Sorted(a + [x] + m + b) && AtLeast(a, c.priority) && x.priority == c.priority
    requires AtMost(m, 0, x.priority) && AtMost(b, 0, x.priority)
    ensures Outer(a + [x] + m + [c] + b, |a| + 1) == a + [x] + Carry(c, m) + b
    decreases |m|, 1
  {
    AtLeastMore(a, x, c.priority);
    CarryRun(a + [x], m, c, b);
  }

  lemma {:induction false} SinkRun(a: seq<Rule>, r: Rule, d: seq<Rule>)
    requires Sorted(a + d) && AtLeast(a, r.priority)
    ensures Outer(a + [r] + d, |a|) == a + Sink(r, d)
    decreases |d|
  {
    hide Sorted, AtLeast, AtMost, Outer;
    if d == [] || r.priority >= d[0].priority {
      SuffixAtMost(a, d, r.priority);
      InsertSorted(a, r, d);
      SortedStays(a + [r] + d, |a|);
      assert d == [] ==> [r] + d == [r];
      assert a + [r] + d == a + ([r] + d);
    } else {
      var y, rest := d[0], d[1..];
      assert d == [y] + rest;
      SinkTurn(a, r, y, rest);
      SinkRun(a + [y], r, rest);
      assert a + ([y] + Sink(r, rest)) == a + [y] + Sink(r, rest);
    }
  }

  lemma SuffixAtMost(a: seq<Rule>, d: seq<Rule>, p: int)
    requires Sorted(a + d) && (d == [] || p >= d[0].priority)
    ensures AtMost(d, 0, p)
  {
    forall k | 0 <= k < |d| ensures d[k].priority <= p { assert d[k] == (a + d)[|a| + k] && d[0] == (a + d)[|a|]; }
  }

  lemma SinkTurn(a: seq<Rule>, r: Rule, y: Rule, rest: seq<Rule>)
    requires Sorted(a + ([y] + rest)) && AtLeast(a, r.priority) && r.priority < y.priority
    ensures Outer(a + [r] + ([y] + rest), |a|) == Outer(a + [y] + [r] + rest, |a| + 1)
    ensures AtLeast(a + [y], r.priority) && Sorted(a + [y] + rest)
  {
    hide Inner, Swap, Sorted, AtLeast, Outer;
    AtLeastMore(a, y, r.priority);
    SinkGroups(a, r, y, rest);
    SortedParts(a, y, [], rest);
    CarryTurn(a, r, [], y, rest);
    OuterStep(a + [r] + [] + [y] + rest, |a|);
  }

  lemma SinkGroups<T>(a: seq<T>, r: T, y: T, rest: seq<T>)
    ensures a + ([y] + []) + rest == a + ([y] + rest) == a + [y] + rest
    ensures a + [r] + ([y] + rest) == a + [r] + [] + [y] + rest && a + [y] + [r] + rest == a + [y] + [] + [r] + rest
  {
  }

  lemma OuterStep(s: seq<Rule>, i: nat)
    requires i + 1 < |s|
    ensures Outer(s, i) == Outer(Inner(s, i, i + 1), i + 1)
  {
    hide Inner;
  }

  /** Putting a rule at place `i` and leaving that place out. */
  lemma Replaced3<T>(s: seq<T>, i: nat, l: nat, r: T)
    requires l <= i < |s|
    ensures s[i := r] == s[..l] + s[l..i] + [r] + s[i + 1..] && s[i := r] == s[..i] + [r] + s[i + 1..]
    ensures s[..l] + s[l..i] + s[i + 1..] == s[..i] + s[i + 1..] && s[..i] + [s[i]] + [] + s[i + 1..] == s
  {
  }

  lemma OthersSorted(s: seq<Rule>, i: nat)
    requires Sorted(s) && i < |s|
    ensures Sorted(s[..i] + s[i + 1..])
  {
    Replaced3(s, i, i, s[i]);
    hide Sorted;
    DroppedSorted(s[..i], s[i], [], s[i + 1..]);
    assert s[..i] + [] + s[i + 1..] == s[..i] + s[i + 1..];
  }

  /** Moving up: the new rule goes behind its equals, and each overtaken group of one priority is rotated by one. */
  lemma UpdateMovesUp(s: seq<Rule>, i: nat, l: nat, r: Rule)
    requires Sorted(s) && l < i < |s| && (forall k | 0 <= k < l :: s[k].priority >= r.priority)
    requires forall k | l <= k < i :: s[k].priority < r.priority
    ensures ExchangeSort(s[i := r]) == s[..l] + [r] + Carry(s[l], s[l + 1..i]) + s[i + 1..]
  {
    var a, m, b := s[..l], s[l..i], s[i + 1..];
    Replaced3(s, i, l, r);
    OthersSorted(s, i);
    forall k | 0 <= k < |b| ensures b[k].priority <= s[i - 1].priority { assert b[k] == s[i + 1 + k]; }
    assert s[i - 1].priority < r.priority;
    assert AtLeast(a, r.priority) && AtMost(m, 0, r.priority) && AtMost(b, 0, r.priority);
    OuterSkips(s[i := r], 0, l);
    assert m[0] == s[l] && m[1..] == s[l + 1..i];
    hide Sorted, AtLeast, AtMost, Outer;
    CarryRun(a, m, r, b);
    Associates(a, [r], Carry(s[l], s[l + 1..i]));
  }

  /** Not moving up: the new rule goes before its equals, and the others stay as they are. */
  lemma UpdateMovesDown(s: seq<Rule>, i: nat, r: Rule)
    requires Sorted(s) && i < |s| && (i > 0 ==> s[i - 1].priority >= r.priority)
    ensures ExchangeSort(s[i := r]) == s[..i] + Sink(r, s[i + 1..])
  {
    Replaced3(s, i, i, r);
    OthersSorted(s, i);
    assert AtLeast(s[..i], r.priority);
    OuterSkips(s[i := r], 0, i);
    hide Sorted, AtLeast, Outer;
    SinkRun(s[..i], r, s[i + 1..]);
  }

  lemma {:induction false} SinkPlace(r: Rule, d: seq<Rule>) returns (k: nat)
    ensures k <= |d| && Sink(r, d) == d[..k] + [r] + d[k..]
  {
    if d == [] || r.priority >= d[0].priority {
      k := 0;
    } else {
      k := SinkPlace(r, d[1..]);
      k := k + 1;
      assert d[..k] == [d[0]] + d[1..][..k - 1] && d[k..] == d[1..][k - 1..];
    }
  }

  // ---------- Which updates keep ties ----------

  function Rotate<T>(u: seq<T>): seq<T> {
    if u == [] then [] else u[1..] + [u[0]]
  }

  lemma {:induction false} CarryTies(c: Rule, m: seq<Rule>, p: int)
    requires Sorted(m) && AtMost(m, 0, c.priority)
    ensures Ties(Carry(c, m), p) == if p == c.priority then Ties(m, p) + [c] else Rotate(Ties(m, p))
    decreases |m|
  {
    if m == [] {
      TiesOne(c, p);
    } else {
      var x, rest := m[0], m[1..];
      assert m == [x] + rest && Sorted(rest) && AtMost(rest, 0, x.priority) && AtMost(rest, 0, c.priority);
      if c.priority > x.priority {
        CarryTies(x, rest, p);
        CarryTiesOver(c, x, rest, p);
      } else {
        CarryTies(c, rest, p);
        CarryTiesPast(c, x, rest, p);
      }
    }
  }

  lemma CarryTiesOver(c: Rule, x: Rule, m: seq<Rule>, p: int)
    requires c.priority > x.priority && AtMost(m, 0, x.priority)
    requires Ties(Carry(x, m), p) == if p == x.priority then Ties(m, p) + [x] else Rotate(Ties(m, p))
    ensures Ties([c] + Carry(x, m), p) == if p == c.priority then Ties([x] + m, p) + [c] else Rotate(Ties([x] + m, p))
  {
    TiesConcat([c], Carry(x, m), p);
    TiesConcat([x], m, p);
    TiesOne(c, p);
    TiesOne(x, p);
    if p == c.priority { NoTies(m, p); }
    hide Ties, Carry;
  }

  lemma CarryTiesPast(c: Rule, x: Rule, m: seq<Rule>, p: int)
    requires c.priority == x.priority
    requires Ties(Carry(c, m), p) == if p == c.priority then Ties(m, p) + [c] else Rotate(Ties(m, p))
    ensures Ties([x] + Carry(c, m), p) == if p == c.priority then Ties([x] + m, p) + [c] else Rotate(Ties([x] + m, p))
  {
    TiesConcat([x], Carry(c, m), p);
    TiesConcat([x], m, p);
    TiesOne(x, p);
    hide Ties, Carry;
    Associates([x], Ties(m, p), [c]);
    assert [] + Ties(m, p) == Ties(m, p) && [] + Rotate(Ties(m, p)) == Rotate(Ties(m, p));
  }

  /** The overtaken block as a whole: each of its groups is rotated. */
  lemma BlockTies(m: seq<Rule>, p: int)
    requires m != [] && Sorted(m)
    ensures Ties(Carry(m[0], m[1..]), p) == Rotate(Ties(m, p))
  {
    var x, rest := m[0], m[1..];
    assert m == [x] + rest && Sorted(rest) && AtMost(rest, 0, x.priority);
    CarryTies(x, rest, p);
    TiesConcat([x], rest, p);
    TiesOne(x, p);
    hide Ties, Carry;
    assert [] + Ties(rest, p) == Ties(rest, p);
  }

  lemma RotateKeepsIff<T(!new)>(u: seq<T>)
    ensures Rotate(u) == u <==> u == [] || Only(u, u[0])
  {
    if u != [] {
      var x, rest := u[0], u[1..];
      assert u == [x] + rest;
      Commutes(x, rest);
      OnlyHead([x], rest, x);
      assert Only([x], x);
    }
  }

  /** No two different rules of the list have the same priority. */
  ghost predicate Untied(m: seq<Rule>) {
    forall a, b | 0 <= a < b < |m| && m[a].priority == m[b].priority :: m[a] == m[b]
  }

  lemma {:induction false} TiesHead(m: seq<Rule>, p: int)
    ensures Ties(m, p) == [] ==> forall k | 0 <= k < |m| :: m[k].priority != p
    ensures Ties(m, p) != [] ==> Ties(m, p)[0].priority == p && exists k :: 0 <= k < |m| && m[k] == Ties(m, p)[0]
  {
    if m != [] {
      TiesHead(m[1..], p);
      if m[0].priority == p {
        assert Ties(m, p)[0] == m[0];
      } else {
        assert Ties(m, p) == Ties(m[1..], p);
        forall k | 1 <= k < |m| ensures m[k] == m[1..][k - 1] {}
        if Ties(m, p) != [] {
          var k :| 0 <= k < |m[1..]| && m[1..][k] == Ties(m, p)[0];
          assert m[k + 1] == Ties(m, p)[0];
        }
      }
    }
  }

  ghost predicate RotationsKeep(m: seq<Rule>) {
    forall p :: Rotate(Ties(m, p)) == Ties(m, p)
  }

  lemma UntiedIffRotationsKeep(m: seq<Rule>)
    ensures RotationsKeep(m) <==> Untied(m)
  {
    hide Ties, Rotate;
    if Untied(m) {
      forall p ensures Rotate(Ties(m, p)) == Ties(m, p) {
        RotateKeepsIff(Ties(m, p));
        TiesHead(m, p);
        if Ties(m, p) != [] {
          var x := Ties(m, p)[0];
          TiesOnly(m, x);
          UntiedHead(m, x);
        }
      }
    }
    if RotationsKeep(m) {
      forall a, b | 0 <= a < b < |m| && m[a].priority == m[b].priority ensures m[a] == m[b] {
        var p := m[a].priority;
        assert Rotate(Ties(m, p)) == Ties(m, p);
        RotateKeepsIff(Ties(m, p));
        TiesHead(m, p);
        TiesOnly(m, Ties(m, p)[0]);
      }
    }
  }

  lemma UntiedHead(m: seq<Rule>, x: Rule)
    requires Untied(m) && exists k :: 0 <= k < |m| && m[k] == x
    ensures OnlyAmongEquals(m, x)
  {
    var k :| 0 <= k < |m| && m[k] == x;
    forall j | 0 <= j < |m| && m[j].priority == x.priority ensures m[j] == x {
      if j < k { assert m[j] == m[k]; } else if k < j { assert m[k] == m[j]; }
    }
  }

  lemma {:induction false} TiesLength(a: seq<Rule>, m: seq<Rule>, b: seq<Rule>, u: seq<Rule>, p: int)
    requires Ties(u, p) == Rotate(Ties(m, p))
    ensures Ties(a + m + b, p) == Ties(a + u + b, p) <==> Rotate(Ties(m, p)) == Ties(m, p)
  {
    TiesConcat(a + m, b, p);
    TiesConcat(a, m, p);
    TiesConcat(a + u, b, p);
    TiesConcat(a, u, p);
    hide Ties;
    Cancels(Ties(a, p), Ties(m, p), Rotate(Ties(m, p)), Ties(b, p));
  }

  /** The rules before `i` that a rule of the new priority overtakes: different ones of equal priority among them. */
  ghost predicate OvertakesNoTie(s: seq<Rule>, i: nat, r: Rule)
    requires i <= |s|
  {
    forall a, b | 0 <= a < b < i && s[a].priority == s[b].priority < r.priority :: s[a] == s[b]
  }

  lemma BlockKeepsTiesIff(a: seq<Rule>, m: seq<Rule>, b: seq<Rule>)
    requires m != [] && Sorted(m)
    ensures SameTies(a + m + b, a + Carry(m[0], m[1..]) + b) <==> Untied(m)
  {
    var u := Carry(m[0], m[1..]);
    UntiedIffRotationsKeep(m);
    hide Ties, Carry, Rotate, Untied, Sorted;
    var s, t := a + m + b, a + u + b;
    if SameTies(s, t) {
      forall p ensures Rotate(Ties(m, p)) == Ties(m, p) {
        assert Ties(s, p) == Ties(t, p);
        BlockTies(m, p);
        TiesLength(a, m, b, u, p);
      }
      assert RotationsKeep(m);
    }
    if RotationsKeep(m) {
      forall p ensures Ties(s, p) == Ties(t, p) {
        assert Rotate(Ties(m, p)) == Ties(m, p);
        BlockTies(m, p);
        TiesLength(a, m, b, u, p);
      }
      assert SameTies(s, t);
    }
  }

  /** UpdateRule on a sorted list keeps the order of ties among the other rules exactly when no two different rules of
      the same priority are overtaken; `q` is where the new rule ends up. */
  lemma UpdateKeepsTiesIff(s: seq<Rule>, r: Rule) returns (q: nat)
    requires Sorted(s) && IndexOf(s, r.id) < |s|
    ensures var i, t := IndexOf(s, r.id), Step(s, Update(r));
      && q < |t| && t[q] == r
      && (SameTies(s[..i] + s[i + 1..], t[..q] + t[q + 1..]) <==> OvertakesNoTie(s, i, r))
  {
    var i := IndexOf(s, r.id);
    if i > 0 && s[i - 1].priority < r.priority {
      q := FirstBelow(s, i, r.priority);
      UpUpdateTies(s, i, q, r);
    } else {
      q := DownUpdateTies(s, i, r);
    }
  }

  /** The overtaken rules are a block that ends at `i`. */
  lemma {:induction false} FirstBelow(s: seq<Rule>, i: nat, p: int) returns (l: nat)
    requires Sorted(s) && 0 < i <= |s| && s[i - 1].priority < p
    ensures l < i && (forall k | 0 <= k < l :: s[k].priority >= p) && forall k | l <= k < i :: s[k].priority < p
  {
    if i == 1 || s[i - 2].priority >= p {
      l := i - 1;
    } else {
      l := FirstBelow(s, i - 1, p);
    }
  }

  lemma UpUpdateTies(s: seq<Rule>, i: nat, l: nat, r: Rule)
    requires Sorted(s) && l < i < |s| && (forall k | 0 <= k < l :: s[k].priority >= r.priority)
    requires forall k | l <= k < i :: s[k].priority < r.priority
    ensures var t := ExchangeSort(s[i := r]);
      && l < |t| && t[l] == r
      && (SameTies(s[..i] + s[i + 1..], t[..l] + t[l + 1..]) <==> OvertakesNoTie(s, i, r))
  {
    var a, m, b, u := s[..l], s[l..i], s[i + 1..], Carry(s[l], s[l + 1..i]);
    UpdateMovesUp(s, i, l, r);
    LeftOut(a, r, u, b);
    Replaced3(s, i, l, r);
    assert m[0] == s[l] && m[1..] == s[l + 1..i] && Sorted(m);
    OvertakenBlock(s, i, l, r);
    hide Sorted, OvertakesNoTie, SameTies, Untied, ExchangeSort, Carry;
    BlockKeepsTiesIff(a, m, b);
  }

  lemma OvertakenBlock(s: seq<Rule>, i: nat, l: nat, r: Rule)
    requires l < i < |s| && (forall k | 0 <= k < l :: s[k].priority >= r.priority)
    requires forall k | l <= k < i :: s[k].priority < r.priority
    ensures Untied(s[l..i]) <==> OvertakesNoTie(s, i, r)
  {
    var m := s[l..i];
    forall k | l <= k < i ensures s[k] == m[k - l] {}
  }

  lemma LeftOut<T>(a: seq<T>, r: T, u: seq<T>, b: seq<T>)
    ensures var t := a + [r] + u + b; |a| < |t| && t[|a|] == r && t[..|a|] + t[|a| + 1..] == a + u + b
  {
  }

  lemma DownUpdateTies(s: seq<Rule>, i: nat, r: Rule) returns (q: nat)
    requires Sorted(s) && i < |s| && (i > 0 ==> s[i - 1].priority >= r.priority)
    ensures var t := ExchangeSort(s[i := r]);
      && q < |t| && t[q] == r
      && SameTies(s[..i] + s[i + 1..], t[..q] + t[q + 1..]) && OvertakesNoTie(s, i, r)
  {
    assert OvertakesNoTie(s, i, r);
    UpdateMovesDown(s, i, r);
    var d := s[i + 1..];
    var k := SinkPlace(r, d);
    q := i + k;
    hide Sorted, ExchangeSort, Sink, OvertakesNoTie;
    SunkOut(s[..i], d, k, r);
    SameTiesReflexive(s[..i] + d);
    hide SameTies;
  }

  lemma SunkOut<T>(a: seq<T>, d: seq<T>, k: nat, r: T)
    requires k <= |d|
    ensures var t, q := a + (d[..k] + [r] + d[k..]), |a| + k; q < |t| && t[q] == r && t[..q] + t[q + 1..] == a + d
  {
    var t, q := a + (d[..k] + [r] + d[k..]), |a| + k;
    assert t[..q] == a + d[..k] && t[q + 1..] == d[k..];
    assert d == d[..k] + d[k..];
  }

  lemma SameTiesReflexive(s: seq<Rule>)
    ensures SameTies(s, s)
  {
  }

  /** The constructor's exchange sort is not stable: of two equal rules the later one can end up first. */
  lemma ConstructorLosesTieOrder(a: Rule, b: Rule, c: Rule)
    requires a.priority == b.priority < c.priority
    ensures ExchangeSort([a, b, c]) == [c, b, a]
  {
    assert Inner([a, b, c], 0, 2) == Inner([c, b, a], 0, 3);
    assert Inner([a, b, c], 0, 1) == [c, b, a];
    assert Inner([c, b, a], 1, 2) == [c, b, a];
    assert Outer([c, b, a], 2) == [c, b, a];
    assert Outer([c, b, a], 1) == [c, b, a];
  }

  /** An update can reverse a tie between two other rules of a sorted list. */
  lemma UpdateLosesTieOrder(a: Rule, b: Rule, c: Rule, c2: Rule)
    requires a.priority == b.priority > c.priority && c2.priority > a.priority
    requires c2.id == c.id && a.id != c.id && b.id != c.id
    ensures Sorted([a, b, c]) && Step([a, b, c], Update(c2)) == [c2, b, a]
  {
    var s := [a, b, c];
    assert IndexOf(s, c2.id) == 2 by { assert s[2].id == c2.id && s[0].id != c2.id && s[1].id != c2.id; }
    assert s[2 := c2] == [a, b, c2];
    ConstructorLosesTieOrder(a, b, c2);
  }

  /** Two exchanges can restore a tie, so no single exchange decides for the whole sort. */
  lemma SecondExchangeRestores(a: Rule, b: Rule, c: Rule, d: Rule)
    requires a.priority == b.priority < c.priority < d.priority
    ensures ExchangeSort([a, b, c, d]) == [d, c, a, b]
  {
    assert Swap([a, b, c, d], 0, 2) == [c, b, a, d] && Swap([c, b, a, d], 0, 3) == [d, b, a, c];
    assert Swap([d, b, a, c], 1, 3) == [d, c, a, b];
    assert Inner([d, b, a, c], 0, 4) == [d, b, a, c];
    assert Inner([c, b, a, d], 0, 3) == [d, b, a, c];
    assert Inner([a, b, c, d], 0, 2) == [d, b, a, c];
    assert Inner([a, b, c, d], 0, 1) == [d, b, a, c];
    assert Inner([d, c, a, b], 1, 4) == [d, c, a, b];
    assert Inner([d, b, a, c], 1, 3) == [d, c, a, b];
    assert Inner([d, b, a, c], 1, 2) == [d, c, a, b];
    assert Inner([d, c, a, b], 2, 3) == [d, c, a, b];
    assert Outer([d, c, a, b], 3) == [d, c, a, b];
    assert Outer([d, c, a, b], 2) == [d, c, a, b];
    assert Outer([d, b, a, c], 1) == [d, c, a, b];
  }

  // ---------- The engine object ----------

  class RuleEngine {
    var rules: seq<Rule>

    constructor (initial: seq<Rule>)
      ensures rules == ExchangeSort(initial)
    {
      rules := initial;
      new;
      SortRules();
    }

    /** sortRules: the exchange sort in place. */
    method SortRules()
      modifies this
      ensures rules == ExchangeSort(old(rules))
    {
      var i := 0;
      while i + 1 < |rules|
        invariant |rules| == |old(rules)| && 0 <= i
        invariant Outer(rules, i) == Outer(old(rules), 0)
        decreases |rules| - i
      {
        var j := i + 1;
        while j < |rules|
          invariant |rules| == |old(rules)| && i < j <= |rules|
          invariant Outer(Inner(rules, i, j), i + 1) == Outer(old(rules), 0)
        {
          if rules[i].priority < rules[j].priority {
            rules := rules[i := rules[j]][j := rules[i]];
          }
          j := j + 1;
        }
        i := i + 1;
      }
    }

    method AddRule(r: Rule)
      modifies this
      ensures rules == Step(old(rules), Add(r))
    {
      rules := rules + [r];
      var i := |rules| - 1;
      while i > 0 && rules[i].priority > rules[i - 1].priority
        invariant 0 <= i < |rules| == |old(rules)| + 1
        invariant Bubble(rules, i) == Bubble(old(rules) + [r], |old(rules)|)
        decreases i
      {
        rules := rules[i := rules[i - 1]][i - 1 := rules[i]];
        i := i - 1;
      }
    }

    method RemoveRule(id: string) returns (found: bool)
      modifies this
      ensures rules == Step(old(rules), Remove(id)) && found == (IndexOf(old(rules), id) < |old(rules)|)
    {
      var i := Find(id);
      found := i < |rules|;
      if found { rules := rules[..i] + rules[i + 1..]; }
    }

    method UpdateRule(r: Rule) returns (found: bool)
      modifies this
      ensures rules == Step(old(rules), Update(r)) && found == (IndexOf(old(rules), r.id) < |old(rules)|)
    {
      var i := Find(r.id);
      found := i < |rules|;
      if found {
        rules := rules[i := r];
        SortRules();
      }
    }

    method Find(id: string) returns (i: nat)
      ensures i == IndexOf(rules, id)
    {
      i := 0;
      while i < |rules| && rules[i].id != id
        invariant i <= |rules| && i + IndexOf(rules[i..], id) == IndexOf(rules, id)
      {
        assert rules[i..][1..] == rules[i + 1..];
        i := i + 1;
      }
    }

    method Match(hits: Rule -> bool) returns (r: Option<Rule>)
      ensures r == FirstHit(rules, hits)
    {
      for i := 0 to |rules|
        invariant FirstHit(rules[i..], hits) == FirstHit(rules, hits)
      {
        assert rules[i..][1..] == rules[i + 1..];
        if !rules[i].enabled { continue; }
        if !hits(rules[i]) { continue; }
        return Some(rules[i]);
      }
      r := None;
    }
  }
}
