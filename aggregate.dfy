/**
 * The per-section aggregation in main of linkermapviz/__init__.py: keep
 * the whitelisted output sections, group each one's contributions by the
 * basename of their file with summed sizes, drop the ignored files, rank
 * the groups by size, take the top N and total the sizes.
 */
module Aggregate {
  import opened Wrappers
  import opened Text
  import opened ObjectFiles

  /** The output sections that are reported. */
  const Whitelist: set<string> := {".text", ".data", ".bss", ".rodata"}

  /** `filter(lambda x: x.section in sectionWhitelist, sections)`, in order. */
  function Whitelisted(sections: seq<Objectfile>): (r: seq<Objectfile>)
    ensures |r| <= |sections|
    ensures forall o :: o in r <==> o in sections && o.section in Whitelist
  {
    if sections == [] then []
    else (if sections[0].section in Whitelist then [sections[0]] else []) + Whitelisted(sections[1..])
  }

  /** The filter keeps one section on its own exactly when it is
      whitelisted. */
  lemma WhitelistedOne(o: Objectfile)
    ensures Whitelisted([o]) == if o.section in Whitelist then [o] else []
  {
  }

  /** The filter works piece by piece: it keeps the input order and every
      repeat. */
  lemma {:induction false} WhitelistedConcat(a: seq<Objectfile>, b: seq<Objectfile>)
    ensures Whitelisted(a + b) == Whitelisted(a) + Whitelisted(b)
    decreases |a|
  {
    if a != [] {
      assert (a + b)[0] == a[0];
      assert (a + b)[1..] == a[1..] + b;
      WhitelistedConcat(a[1..], b);
    } else {
      assert a + b == b;
    }
  }

  // ---------------------------------------------------------------------
  // Grouping keys and their order
  // ---------------------------------------------------------------------

  /** A contribution's basepath as a dictionary key: None is Unknown. */
  datatype Key = Known(name: string) | Unknown

  function KeyOf(o: Objectfile): (k: Key)
    ensures k.Known? <==> o.basepath.Some?
  {
    if o.basepath.Some? then Known(o.basepath.value) else Unknown
  }

  /** sorted() compares basepaths with Python's str `<`. Python cannot
      compare None at all; putting Unknown first only makes this order
      total, and it is never used to order Unknown against another key. */
  predicate KeyLess(a: Key, b: Key) {
    match (a, b)
    case (Known(x), Known(y)) => LexLess(x, y)
    case (Unknown, Known(_)) => true
    case _ => false
  }

  lemma KeyLessIrreflexive(a: Key)
    ensures !KeyLess(a, a)
  {
    if a.Known? {
      LexLessIrreflexive(a.name);
    }
  }

  lemma KeyLessTransitive(a: Key, b: Key, c: Key)
    requires KeyLess(a, b) && KeyLess(b, c)
    ensures KeyLess(a, c)
  {
    if a.Known? {
      LexLessTransitive(a.name, b.name, c.name);
    }
  }

  lemma KeyLessTotal(a: Key, b: Key)
    requires a != b
    ensures KeyLess(a, b) || KeyLess(b, a)
  {
    if a.Known? && b.Known? {
      LexLessTotal(a.name, b.name);
    }
  }

  predicate KeyLe(a: Key, b: Key) {
    a == b || KeyLess(a, b)
  }

  ghost predicate SortedByKey(objs: seq<Objectfile>) {
    forall i, j :: 0 <= i < j < |objs| ==> KeyLe(KeyOf(objs[i]), KeyOf(objs[j]))
  }

  // ---------------------------------------------------------------------
  // Sizes
  // ---------------------------------------------------------------------

  /** The summed size of the contributions whose key is `k`. */
  function SumFor(objs: seq<Objectfile>, k: Key): nat {
    if objs == [] then 0
    else (if KeyOf(objs[0]) == k then objs[0].size else 0) + SumFor(objs[1..], k)
  }

  /** The summed size of all contributions. */
  function TotalSize(objs: seq<Objectfile>): nat {
    if objs == [] then 0 else objs[0].size + TotalSize(objs[1..])
  }

  /** Both sums over one more contribution at the end. */
  lemma {:induction false} SumsSnoc(objs: seq<Objectfile>, o: Objectfile)
    ensures TotalSize(objs + [o]) == TotalSize(objs) + o.size
    ensures forall k :: SumFor(objs + [o], k) == SumFor(objs, k) + (if KeyOf(o) == k then o.size else 0)
  {
    if objs == [] {
      assert objs + [o] == [o];
    } else {
      assert (objs + [o])[0] == objs[0];
      assert (objs + [o])[1..] == objs[1..] + [o];
      SumsSnoc(objs[1..], o);
    }
  }

  lemma {:induction false} SumForAbsent(objs: seq<Objectfile>, k: Key)
    requires forall j :: 0 <= j < |objs| ==> KeyOf(objs[j]) != k
    ensures SumFor(objs, k) == 0
  {
    if objs != [] {
      SumForAbsent(objs[1..], k);
    }
  }

  // ---------------------------------------------------------------------
  // sorted(objects, key=basepath)
  // ---------------------------------------------------------------------

  /** Puts `x` before the first element whose key is not below its own:
      the same contributions, so the same sums. */
  function Insert(x: Objectfile, objs: seq<Objectfile>): (r: seq<Objectfile>)
    ensures |r| == |objs| + 1
    ensures multiset(r) == multiset(objs) + multiset{x}
    ensures TotalSize(r) == x.size + TotalSize(objs)
    ensures forall k :: SumFor(r, k) == (if KeyOf(x) == k then x.size else 0) + SumFor(objs, k)
  {
    if objs == [] then [x]
    else if KeyLess(KeyOf(objs[0]), KeyOf(x)) then
      var r := [objs[0]] + Insert(x, objs[1..]);
      assert objs == [objs[0]] + objs[1..];
      assert r[1..] == Insert(x, objs[1..]);
      r
    else
      var r := [x] + objs;
      assert r[1..] == objs;
      r
  }

  lemma {:induction false} InsertSorted(x: Objectfile, objs: seq<Objectfile>)
    requires SortedByKey(objs)
    ensures SortedByKey(Insert(x, objs))
  {
    if objs != [] {
      if KeyLess(KeyOf(objs[0]), KeyOf(x)) {
        InsertSorted(x, objs[1..]);
        InsertAfterHead(x, objs);
      } else {
        InsertAtHead(x, objs);
      }
    }
  }

  lemma InsertAfterHead(x: Objectfile, objs: seq<Objectfile>)
    requires objs != [] && KeyLess(KeyOf(objs[0]), KeyOf(x))
    requires SortedByKey(objs) && SortedByKey(Insert(x, objs[1..]))
    ensures SortedByKey(Insert(x, objs))
  {
    var rest := Insert(x, objs[1..]);
    assert Insert(x, objs) == [objs[0]] + rest;
    forall o | o in rest
      ensures KeyLe(KeyOf(objs[0]), KeyOf(o))
    {
      assert o in multiset(rest);
      if o != x {
        assert o in multiset(objs[1..]);
        var j :| 0 <= j < |objs[1..]| && objs[1..][j] == o;
        assert objs[j + 1] == o;
      }
    }
    var r := [objs[0]] + rest;
    forall i, j | 0 <= i < j < |r|
      ensures KeyLe(KeyOf(r[i]), KeyOf(r[j]))
    {
      if i == 0 {
        assert r[j] in rest;
      } else {
        assert r[i] == rest[i - 1] && r[j] == rest[j - 1];
      }
    }
  }

  lemma InsertAtHead(x: Objectfile, objs: seq<Objectfile>)
    requires objs != [] && !KeyLess(KeyOf(objs[0]), KeyOf(x))
    requires SortedByKey(objs)
    ensures SortedByKey(Insert(x, objs))
  {
    forall j | 0 <= j < |objs|
      ensures KeyLe(KeyOf(x), KeyOf(objs[j]))
    {
      if KeyOf(x) != KeyOf(objs[0]) {
        KeyLessTotal(KeyOf(x), KeyOf(objs[0]));
        if KeyOf(objs[0]) != KeyOf(objs[j]) {
          KeyLessTransitive(KeyOf(x), KeyOf(objs[0]), KeyOf(objs[j]));
        }
      }
    }
    var r := [x] + objs;
    assert Insert(x, objs) == r;
    forall i, j | 0 <= i < j < |r|
      ensures KeyLe(KeyOf(r[i]), KeyOf(r[j]))
    {
      if i > 0 {
        assert r[i] == objs[i - 1] && r[j] == objs[j - 1];
      }
    }
  }

  /** sorted() by key: an ordered permutation of its input, with the same
      sums. */
  function SortByKey(objs: seq<Objectfile>): (r: seq<Objectfile>)
    ensures |r| == |objs|
    ensures multiset(r) == multiset(objs)
    ensures SortedByKey(r)
    ensures TotalSize(r) == TotalSize(objs)
    ensures forall k :: SumFor(r, k) == SumFor(objs, k)
  {
    if objs == [] then []
    else
      var rest := SortByKey(objs[1..]);
      assert objs == [objs[0]] + objs[1..];
      InsertSorted(objs[0], rest);
      Insert(objs[0], rest)
  }

  // ---------------------------------------------------------------------
  // groupby: one (key, size) per basepath
  // ---------------------------------------------------------------------

  /** An item of `groupsize` and later of `grouped_obj`: GroupedObj(path, size). */
  datatype Group = Group(key: Key, size: nat)

  /** What main can raise: TypeError from sorted() comparing a None
      basepath, IndexError from the top-N loop. */
  datatype AggregateError = UnorderableBasepath | IndexOutOfRange

  ghost predicate KeysAscending(gs: seq<Group>) {
    forall i, j :: 0 <= i < j < |gs| ==> KeyLess(gs[i].key, gs[j].key)
  }

  ghost predicate HasKey(gs: seq<Group>, k: Key) {
    exists i :: 0 <= i < |gs| && gs[i].key == k
  }

  ghost predicate KeyOccurs(objs: seq<Objectfile>, k: Key) {
    exists j :: 0 <= j < |objs| && KeyOf(objs[j]) == k
  }

  /** sorted() has two contributions to compare and one has no basepath. */
  ghost predicate Unorderable(children: seq<Objectfile>) {
    |children| >= 2 && KeyOccurs(children, Unknown)
  }

  /** Some contribution has no basepath. */
  function AnyUnknown(objs: seq<Objectfile>): (b: bool)
    ensures b <==> KeyOccurs(objs, Unknown)
  {
    if objs == [] then false
    else
      assert KeyOccurs(objs, Unknown) <==> KeyOf(objs[0]) == Unknown || KeyOccurs(objs[1..], Unknown) by {
        if KeyOccurs(objs[1..], Unknown) {
          var j :| 0 <= j < |objs[1..]| && KeyOf(objs[1..][j]) == Unknown;
          assert objs[j + 1] == objs[1..][j];
        }
        if KeyOccurs(objs, Unknown) && KeyOf(objs[0]) != Unknown {
          var j :| 0 <= j < |objs| && KeyOf(objs[j]) == Unknown;
          assert objs[1..][j - 1] == objs[j];
        }
      }
      objs[0].basepath.None? || AnyUnknown(objs[1..])
  }

  function GroupTotal(gs: seq<Group>): nat {
    if gs == [] then 0 else gs[0].size + GroupTotal(gs[1..])
  }

  lemma {:induction false} GroupTotalConcat(a: seq<Group>, b: seq<Group>)
    ensures GroupTotal(a + b) == GroupTotal(a) + GroupTotal(b)
  {
    if a == [] {
      assert a + b == b;
    } else {
      assert (a + b)[0] == a[0];
      assert (a + b)[1..] == a[1..] + b;
      GroupTotalConcat(a[1..], b);
    }
  }

  /** The state of the groupby loop after the first `i` contributions of
      the sorted list: keys ascending, one group per key seen, each holding
      its key's sum so far, and the last group is the current run. */
  ghost predicate GroupedPrefix(sorted: seq<Objectfile>, i: nat, groups: seq<Group>)
    requires i <= |sorted|
  {
    && KeysAscending(groups)
    && (groups == [] <==> i == 0)
    && (i > 0 ==> groups[|groups| - 1].key == KeyOf(sorted[i - 1]))
    && (forall g :: 0 <= g < |groups| ==> groups[g].size == SumFor(sorted[..i], groups[g].key))
    && (forall k :: HasKey(groups, k) <==> KeyOccurs(sorted[..i], k))
    && GroupTotal(groups) == TotalSize(sorted[..i])
  }

  /** The keys of one more contribution. */
  lemma OccursSnoc(objs: seq<Objectfile>, i: nat)
    requires i < |objs|
    ensures forall k :: KeyOccurs(objs[..i + 1], k) <==> KeyOccurs(objs[..i], k) || KeyOf(objs[i]) == k
  {
    forall k
      ensures KeyOccurs(objs[..i + 1], k) <==> KeyOccurs(objs[..i], k) || KeyOf(objs[i]) == k
    {
      if KeyOccurs(objs[..i + 1], k) {
        var j :| 0 <= j < i + 1 && KeyOf(objs[..i + 1][j]) == k;
        if j < i {
          assert KeyOf(objs[..i][j]) == k;
        }
      }
      if KeyOccurs(objs[..i], k) {
        var j :| 0 <= j < i && KeyOf(objs[..i][j]) == k;
        assert KeyOf(objs[..i + 1][j]) == k;
      }
      if KeyOf(objs[i]) == k {
        assert KeyOf(objs[..i + 1][i]) == k;
      }
    }
  }

  /** The keys of one more group. */
  lemma HasKeySnoc(groups: seq<Group>, x: Group)
    ensures forall k :: HasKey(groups + [x], k) <==> HasKey(groups, k) || x.key == k
  {
    forall k
      ensures HasKey(groups + [x], k) <==> HasKey(groups, k) || x.key == k
    {
      if HasKey(groups + [x], k) {
        var g :| 0 <= g < |groups| + 1 && (groups + [x])[g].key == k;
        if g < |groups| {
          assert groups[g].key == k;
        }
      }
      if HasKey(groups, k) {
        var g :| 0 <= g < |groups| && groups[g].key == k;
        assert (groups + [x])[g].key == k;
      }
      if x.key == k {
        assert (groups + [x])[|groups|].key == k;
      }
    }
  }

  /** Replacing a group by one with the same key keeps the keys. */
  lemma HasKeyUpdate(groups: seq<Group>, n: nat, x: Group)
    requires n < |groups| && x.key == groups[n].key
    ensures forall k :: HasKey(groups[n := x], k) <==> HasKey(groups, k)
  {
    forall k
      ensures HasKey(groups[n := x], k) <==> HasKey(groups, k)
    {
      if HasKey(groups[n := x], k) {
        var g :| 0 <= g < |groups| && groups[n := x][g].key == k;
        assert groups[g].key == k;
      }
      if HasKey(groups, k) {
        var g :| 0 <= g < |groups| && groups[g].key == k;
        assert groups[n := x][g].key == k;
      }
    }
  }

  /** A contribution with the current run's key adds to the last group. */
  lemma GroupSameKey(sorted: seq<Objectfile>, i: nat, groups: seq<Group>)
    requires i < |sorted| && GroupedPrefix(sorted, i, groups)
    requires groups != [] && groups[|groups| - 1].key == KeyOf(sorted[i])
    ensures GroupedPrefix(sorted, i + 1, groups[|groups| - 1 := Group(KeyOf(sorted[i]), groups[|groups| - 1].size + sorted[i].size)])
  {
    var o := sorted[i];
    var n := |groups| - 1;
    var next := groups[n := Group(KeyOf(o), groups[n].size + o.size)];
    assert sorted[..i + 1] == sorted[..i] + [o];
    SumsSnoc(sorted[..i], o);
    assert KeysAscending(next) by {
      forall a, b | 0 <= a < b < |next|
        ensures KeyLess(next[a].key, next[b].key)
      {
        assert next[a].key == groups[a].key && next[b].key == groups[b].key;
      }
    }
    forall g | 0 <= g < |next|
      ensures next[g].size == SumFor(sorted[..i + 1], next[g].key)
    {
      if g < n {
        assert KeyLess(groups[g].key, groups[n].key);
        KeyLessIrreflexive(groups[n].key);
      }
    }
    OccursSnoc(sorted, i);
    HasKeyUpdate(groups, n, next[n]);
    forall k
      ensures HasKey(next, k) <==> KeyOccurs(sorted[..i + 1], k)
    {
      assert HasKey(next, k) <==> HasKey(groups, k);
      assert HasKey(groups, k) <==> KeyOccurs(sorted[..i], k);
      if KeyOf(o) == k {
        assert HasKey(groups, groups[n].key);
      }
    }
    var init := groups[..n];
    assert groups == init + [groups[n]];
    assert next == init + [next[n]];
    GroupTotalConcat(init, [groups[n]]);
    GroupTotalConcat(init, [next[n]]);
    assert GroupTotal(next) == TotalSize(sorted[..i + 1]);
  }

  /** A contribution with a new key starts a group; sorting guarantees the
      key is above every key seen so far. */
  lemma GroupNewKey(sorted: seq<Objectfile>, i: nat, groups: seq<Group>)
    requires SortedByKey(sorted)
    requires i < |sorted| && GroupedPrefix(sorted, i, groups)
    requires groups == [] || groups[|groups| - 1].key != KeyOf(sorted[i])
    ensures GroupedPrefix(sorted, i + 1, groups + [Group(KeyOf(sorted[i]), sorted[i].size)])
  {
    var o := sorted[i];
    var next := groups + [Group(KeyOf(o), o.size)];
    assert sorted[..i + 1] == sorted[..i] + [o];
    SumsSnoc(sorted[..i], o);
    forall j | 0 <= j < i
      ensures KeyLess(KeyOf(sorted[j]), KeyOf(o))
    {
      assert KeyLe(KeyOf(sorted[j]), KeyOf(o));
      assert KeyLe(KeyOf(sorted[j]), KeyOf(sorted[i - 1]));
      if KeyOf(sorted[j]) == KeyOf(o) {
        assert KeyLess(KeyOf(sorted[i - 1]), KeyOf(o));
        KeyLessTransitive(KeyOf(o), KeyOf(sorted[i - 1]), KeyOf(o));
        KeyLessIrreflexive(KeyOf(o));
      }
    }
    forall g | 0 <= g < |groups|
      ensures KeyLess(groups[g].key, KeyOf(o))
    {
      assert HasKey(groups, groups[g].key);
    }
    assert !KeyOccurs(sorted[..i], KeyOf(o)) by {
      forall j | 0 <= j < i
        ensures KeyOf(sorted[..i][j]) != KeyOf(o)
      {
        KeyLessIrreflexive(KeyOf(o));
      }
    }
    SumForAbsent(sorted[..i], KeyOf(o));
    forall g | 0 <= g < |groups|
      ensures next[g].size == SumFor(sorted[..i + 1], next[g].key)
    {
      KeyLessIrreflexive(KeyOf(o));
    }
    OccursSnoc(sorted, i);
    HasKeySnoc(groups, Group(KeyOf(o), o.size));
    GroupTotalConcat(groups, [Group(KeyOf(o), o.size)]);
  }

  /** At the end of the loop the groups describe the unsorted input. */
  lemma GroupedAll(children: seq<Objectfile>, sorted: seq<Objectfile>, groups: seq<Group>)
    requires |sorted| == |children| && multiset(sorted) == multiset(children)
    requires TotalSize(sorted) == TotalSize(children)
    requires forall k :: SumFor(sorted, k) == SumFor(children, k)
    requires GroupedPrefix(sorted, |sorted|, groups)
    ensures KeysAscending(groups)
    ensures forall k :: HasKey(groups, k) <==> KeyOccurs(children, k)
    ensures forall i :: 0 <= i < |groups| ==> groups[i].size == SumFor(children, groups[i].key)
    ensures GroupTotal(groups) == TotalSize(children)
  {
    assert sorted[..|sorted|] == sorted;
    forall k
      ensures KeyOccurs(sorted, k) <==> KeyOccurs(children, k)
    {
      if KeyOccurs(children, k) {
        var j :| 0 <= j < |children| && KeyOf(children[j]) == k;
        assert children[j] in multiset(sorted);
      }
      if KeyOccurs(sorted, k) {
        var j :| 0 <= j < |sorted| && KeyOf(sorted[j]) == k;
        assert sorted[j] in multiset(children);
      }
    }
  }

  /** `groupby` over a key-sorted list, summing each run: the dictionary
      `groupsize` as its items in insertion order. */
  method GroupRuns(sorted: seq<Objectfile>) returns (groups: seq<Group>)
    requires SortedByKey(sorted)
    ensures GroupedPrefix(sorted, |sorted|, groups)
  {
    groups := [];
    var i := 0;
    while i < |sorted|
      invariant i <= |sorted| && GroupedPrefix(sorted, i, groups)
    {
      var o := sorted[i];
      if |groups| > 0 && groups[|groups| - 1].key == KeyOf(o) {
        GroupSameKey(sorted, i, groups);
        groups := groups[|groups| - 1 := Group(KeyOf(o), groups[|groups| - 1].size + o.size)];
      } else {
        GroupNewKey(sorted, i, groups);
        groups := groups + [Group(KeyOf(o), o.size)];
      }
      i := i + 1;
    }
  }

  /** The groupby loop of one section (`groupsize`, in the dict's insertion
      order). sorted() raises TypeError exactly when it has two or more
      contributions to compare and one of them has no basepath. Otherwise
      there is one group per distinct basepath, in ascending order, holding
      the summed size of that basepath's contributions. */
  method GroupSizes(children: seq<Objectfile>) returns (r: Result<seq<Group>, AggregateError>)
    ensures r.Err? <==> Unorderable(children)
    ensures r.Err? ==> r.error == UnorderableBasepath
    ensures r.Ok? ==> KeysAscending(r.value)
    ensures r.Ok? ==> forall k :: HasKey(r.value, k) <==> KeyOccurs(children, k)
    ensures r.Ok? ==> forall i :: 0 <= i < |r.value| ==> r.value[i].size == SumFor(children, r.value[i].key)
    ensures r.Ok? ==> GroupTotal(r.value) == TotalSize(children)
  {
    if |children| >= 2 && AnyUnknown(children) {
      return Err(UnorderableBasepath);
    }
    var sorted := SortByKey(children);
    var groups := GroupRuns(sorted);
    GroupedAll(children, sorted, groups);
    return Ok(groups);
  }

  // ---------------------------------------------------------------------
  // grouped_obj: ignore, rank, top N, total
  // ---------------------------------------------------------------------

  /** `k in ignore_files`; no file name equals None. */
  predicate Ignored(k: Key, ignore: seq<string>) {
    k.Known? && k.name in ignore
  }

  /** The comprehension `[... if k not in ignore_files]`, in order. */
  function Unignored(gs: seq<Group>, ignore: seq<string>): (r: seq<Group>)
    ensures forall g :: g in r <==> g in gs && !Ignored(g.key, ignore)
  {
    if gs == [] then []
    else
      var rest := Unignored(gs[1..], ignore);
      if Ignored(gs[0].key, ignore) then rest else [gs[0]] + rest
  }

  /** Filtering keeps the ascending key order. */
  lemma {:induction false} UnignoredAscending(gs: seq<Group>, ignore: seq<string>)
    requires KeysAscending(gs)
    ensures KeysAscending(Unignored(gs, ignore))
  {
    if gs != [] {
      var rest := Unignored(gs[1..], ignore);
      UnignoredAscending(gs[1..], ignore);
      assert forall g :: g in rest ==> KeyLess(gs[0].key, g.key);
      if !Ignored(gs[0].key, ignore) {
        var r := [gs[0]] + rest;
        forall i, j | 0 <= i < j < |r|
          ensures KeyLess(r[i].key, r[j].key)
        {
          if i == 0 {
            assert r[j] in rest;
          } else {
            assert r[i] == rest[i - 1] && r[j] == rest[j - 1];
          }
        }
      }
    }
  }

  /** Ignoring nothing keeps every group. */
  lemma {:induction false} UnignoredNothing(gs: seq<Group>)
    ensures Unignored(gs, []) == gs
  {
    if gs != [] {
      assert !Ignored(gs[0].key, []);
      assert Unignored(gs, []) == [gs[0]] + Unignored(gs[1..], []);
      UnignoredNothing(gs[1..]);
      assert gs == [gs[0]] + gs[1..];
    }
  }

  /** The groups of size `v`, in order. */
  function WithSize(gs: seq<Group>, v: nat): seq<Group> {
    if gs == [] then []
    else (if gs[0].size == v then [gs[0]] else []) + WithSize(gs[1..], v)
  }

  lemma {:induction false} WithSizeConcat(a: seq<Group>, b: seq<Group>, v: nat)
    ensures WithSize(a + b, v) == WithSize(a, v) + WithSize(b, v)
  {
    if a == [] {
      assert a + b == b;
    } else {
      var head := if a[0].size == v then [a[0]] else [];
      assert (a + b)[0] == a[0];
      assert (a + b)[1..] == a[1..] + b;
      assert WithSize(a + b, v) == head + WithSize(a[1..] + b, v);
      WithSizeConcat(a[1..], b, v);
      assert WithSize(a, v) == head + WithSize(a[1..], v);
      assert head + (WithSize(a[1..], v) + WithSize(b, v)) == head + WithSize(a[1..], v) + WithSize(b, v);
    }
  }

  ghost predicate NonIncreasing(gs: seq<Group>) {
    forall i, j :: 0 <= i < j < |gs| ==> gs[i].size >= gs[j].size
  }

  /** Groups of equal size are listed in ascending key order. */
  ghost predicate TiesAscending(gs: seq<Group>) {
    forall i, j :: 0 <= i < j < |gs| && gs[i].size == gs[j].size ==> KeyLess(gs[i].key, gs[j].key)
  }

  /** Inserting `x` after every group at least as large and before every
      smaller one keeps the order, and puts `x` last among its size. */
  lemma SlotKeepsOrder(r: seq<Group>, p: nat, x: Group)
    requires p <= |r| && NonIncreasing(r)
    requires forall j :: 0 <= j < p ==> r[j].size >= x.size
    requires forall j :: p <= j < |r| ==> r[j].size < x.size
    ensures NonIncreasing(r[..p] + [x] + r[p..])
    ensures TiesAscending(r) && (forall g :: g in r ==> KeyLess(g.key, x.key)) ==> TiesAscending(r[..p] + [x] + r[p..])
  {
    var r' := r[..p] + [x] + r[p..];
    forall i | 0 <= i < |r'|
      ensures r'[i] == if i < p then r[i] else if i == p then x else r[i - 1]
    {
    }
    if TiesAscending(r) && (forall g :: g in r ==> KeyLess(g.key, x.key)) {
      forall i, j | 0 <= i < j < |r'| && r'[i].size == r'[j].size
        ensures KeyLess(r'[i].key, r'[j].key)
      {
        if j == p {
          assert r[i] in r;
        }
      }
    }
  }

  /** The same insertion adds `x` to the groups ... */
  lemma SlotAddsGroup(r: seq<Group>, p: nat, x: Group)
    requires p <= |r|
    ensures multiset(r[..p] + [x] + r[p..]) == multiset(r) + multiset{x}
  {
    assert r == r[..p] + r[p..];
  }

  /** ... and to their total ... */
  lemma SlotAddsSize(r: seq<Group>, p: nat, x: Group)
    requires p <= |r|
    ensures GroupTotal(r[..p] + [x] + r[p..]) == GroupTotal(r) + x.size
  {
    var a, b := r[..p], r[p..];
    assert r == a + b;
    GroupTotalConcat(a + [x], b);
    GroupTotalConcat(a, [x]);
    GroupTotalConcat(a, b);
  }

  lemma {:induction false} WithSizeNone(gs: seq<Group>, v: nat)
    requires forall j :: 0 <= j < |gs| ==> gs[j].size != v
    ensures WithSize(gs, v) == []
  {
    if gs != [] {
      WithSizeNone(gs[1..], v);
    }
  }

  /** ... and puts `x` at the end of the groups of its size. */
  lemma SlotEndsItsSize(r: seq<Group>, p: nat, x: Group, v: nat)
    requires p <= |r|
    requires forall j :: p <= j < |r| ==> r[j].size < x.size
    ensures WithSize(r[..p] + [x] + r[p..], v) == WithSize(r, v) + WithSize([x], v)
  {
    var a, b := r[..p], r[p..];
    assert r == a + b;
    WithSizeConcat(a + [x], b, v);
    WithSizeConcat(a, [x], v);
    WithSizeConcat(a, b, v);
    if v == x.size {
      WithSizeNone(b, v);
      assert WithSize(a, v) + [] == WithSize(a, v);
      assert WithSize(a, v) + WithSize([x], v) + [] == WithSize(a, v) + WithSize([x], v);
    } else {
      assert WithSize([x], v) == [];
      assert WithSize(a, v) + [] == WithSize(a, v);
      assert WithSize(r, v) + [] == WithSize(r, v);
    }
  }

  /** The state of the ranking loop after the first `i` groups. */
  ghost predicate RankedPrefix(gs: seq<Group>, i: nat, r: seq<Group>)
    requires i <= |gs|
  {
    && NonIncreasing(r)
    && multiset(r) == multiset(gs[..i])
    && (forall v :: WithSize(r, v) == WithSize(gs[..i], v))
    && GroupTotal(r) == GroupTotal(gs[..i])
    && (KeysAscending(gs) ==> TiesAscending(r))
  }

  lemma RankStep(gs: seq<Group>, i: nat, r: seq<Group>, p: nat)
    requires i < |gs| && RankedPrefix(gs, i, r)
    requires p <= |r|
    requires forall j :: 0 <= j < p ==> r[j].size >= gs[i].size
    requires forall j :: p <= j < |r| ==> r[j].size < gs[i].size
    ensures RankedPrefix(gs, i + 1, r[..p] + [gs[i]] + r[p..])
  {
    var x := gs[i];
    SlotAddsGroup(r, p, x);
    SlotAddsSize(r, p, x);
    assert gs[..i + 1] == gs[..i] + [x];
    forall v
      ensures WithSize(r[..p] + [x] + r[p..], v) == WithSize(gs[..i + 1], v)
    {
      SlotEndsItsSize(r, p, x, v);
      WithSizeConcat(gs[..i], [x], v);
    }
    GroupTotalConcat(gs[..i], [x]);
    if KeysAscending(gs) {
      forall g | g in r
        ensures KeyLess(g.key, x.key)
      {
        assert g in multiset(gs[..i]);
        var j :| 0 <= j < i && gs[..i][j] == g;
      }
    }
    SlotKeepsOrder(r, p, x);
  }

  /** Where insertion puts `x`: after every group at least as large. */
  method FindSlot(r: seq<Group>, x: Group) returns (p: nat)
    requires NonIncreasing(r)
    ensures p <= |r|
    ensures forall j :: 0 <= j < p ==> r[j].size >= x.size
    ensures forall j :: p <= j < |r| ==> r[j].size < x.size
  {
    p := 0;
    while p < |r| && r[p].size >= x.size
      invariant 0 <= p <= |r|
      invariant forall j :: 0 <= j < p ==> r[j].size >= x.size
    {
      p := p + 1;
    }
  }

  /** `grouped_obj.sort(reverse=True, key=size)`: the same groups, largest
      first; list.sort is stable, so the groups of any one size keep their
      relative order, which for groups that arrive in ascending key order
      means ties are listed by ascending key. */
  method SortBySizeDesc(gs: seq<Group>) returns (r: seq<Group>)
    ensures NonIncreasing(r)
    ensures multiset(r) == multiset(gs)
    ensures forall v :: WithSize(r, v) == WithSize(gs, v)
    ensures GroupTotal(r) == GroupTotal(gs)
    ensures KeysAscending(gs) ==> TiesAscending(r)
  {
    r := [];
    var i := 0;
    while i < |gs|
      invariant 0 <= i <= |gs| && RankedPrefix(gs, i, r)
    {
      var x := gs[i];
      var p := FindSlot(r, x);
      RankStep(gs, i, r, p);
      r := r[..p] + [x] + r[p..];
      i := i + 1;
    }
    assert gs[..i] == gs;
  }

  /** The top-N report: the first N ranked groups, all of them when there
      are fewer, none when N is not positive. */
  function Top(gs: seq<Group>, n: int): (r: seq<Group>)
    ensures r <= gs
    ensures |r| == if n <= 0 then 0 else if n < |gs| then n else |gs|
  {
    if n <= 0 then [] else if n < |gs| then gs[..n] else gs
  }

  /** The `for i in range(0, n_largest)` loop as written: it indexes
      grouped_obj[i] with no bound check, so it raises IndexError as soon
      as N exceeds the number of groups; otherwise it reports the first N. */
  method TopAsWritten(gs: seq<Group>, n: int) returns (r: Result<seq<Group>, AggregateError>)
    ensures r.Err? <==> n > |gs|
    ensures r.Err? ==> r.error == IndexOutOfRange
    ensures r.Ok? ==> r.value == Top(gs, n)
  {
    var out: seq<Group> := [];
    var i := 0;
    while i < n
      invariant 0 <= i && (n >= 0 ==> i <= n) && (n <= 0 ==> i == 0)
      invariant i <= |gs| && out == gs[..i]
      decreases n - i
    {
      if i >= |gs| {
        return Err(IndexOutOfRange);
      }
      out := out + [gs[i]];
      i := i + 1;
      assert gs[..i] == gs[..i - 1] + [gs[i - 1]];
    }
    assert i == |gs| ==> gs[..i] == gs;
    return Ok(out);
  }

  /** The default --print-largest is 10: any section with fewer than ten
      groups makes the loop as written fail, where the report of all its
      groups was evidently intended. */
  lemma TopDefaultOnFewGroups(gs: seq<Group>)
    requires |gs| < 10
    ensures Top(gs, 10) == gs
  {
  }

  /** `totalsize = sum(values)` */
  method SumSizes(gs: seq<Group>) returns (total: nat)
    ensures total == GroupTotal(gs)
  {
    total := 0;
    var i := |gs|;
    while i > 0
      invariant 0 <= i <= |gs|
      invariant total == GroupTotal(gs[i..])
    {
      i := i - 1;
      assert gs[i..] == [gs[i]] + gs[i + 1..];
      total := total + gs[i].size;
    }
  }

  // ---------------------------------------------------------------------
  // One section's report, and all of them
  // ---------------------------------------------------------------------

  /** What main computes for one whitelisted section: grouped_obj, the
      printed top N and totalsize. */
  datatype Report = Report(section: string, ranked: seq<Group>, top: seq<Group>, total: nat)

  /** A group is in grouped_obj exactly when its key is a basepath of the
      section, is not ignored, and its size is that basepath's sum. */
  ghost predicate RankedGroup(children: seq<Objectfile>, ignore: seq<string>, g: Group) {
    KeyOccurs(children, g.key) && !Ignored(g.key, ignore) && g.size == SumFor(children, g.key)
  }

  lemma GroupsAreSums(children: seq<Objectfile>, groups: seq<Group>, g: Group)
    requires forall k :: HasKey(groups, k) <==> KeyOccurs(children, k)
    requires forall i :: 0 <= i < |groups| ==> groups[i].size == SumFor(children, groups[i].key)
    ensures g in groups <==> KeyOccurs(children, g.key) && g.size == SumFor(children, g.key)
  {
    if g in groups {
      var i :| 0 <= i < |groups| && groups[i] == g;
      assert HasKey(groups, g.key);
    }
    if KeyOccurs(children, g.key) && g.size == SumFor(children, g.key) {
      assert HasKey(groups, g.key);
      var i :| 0 <= i < |groups| && groups[i].key == g.key;
      assert groups[i] == g;
    }
  }

  /** What the report of one output section holds: its name; its basepath
      groups, largest first and ties in basepath order, each the sum of
      that basepath's contributions unless ignored; the first `n` of them;
      their total, which is the section's total when nothing is ignored. */
  ghost predicate Describes(rep: Report, s: Objectfile, ignore: seq<string>, n: int) {
    && rep.section == s.section
    && NonIncreasing(rep.ranked) && TiesAscending(rep.ranked)
    && (forall g :: g in rep.ranked <==> RankedGroup(s.children, ignore, g))
    && rep.top == Top(rep.ranked, n)
    && rep.total == GroupTotal(rep.ranked)
    && (ignore == [] ==> rep.total == TotalSize(s.children))
  }

  method ReportSection(s: Objectfile, ignore: seq<string>, n: int) returns (r: Result<Report, AggregateError>)
    ensures r.Err? <==> Unorderable(s.children)
    ensures r.Err? ==> r.error == UnorderableBasepath
    ensures r.Ok? ==> Describes(r.value, s, ignore, n)
  {
    var grouped := GroupSizes(s.children);
    if grouped.Err? {
      return Err(grouped.error);
    }
    var groups := grouped.value;
    var kept := Unignored(groups, ignore);
    UnignoredAscending(groups, ignore);
    var ranked := SortBySizeDesc(kept);
    forall g
      ensures g in ranked <==> RankedGroup(s.children, ignore, g)
    {
      GroupsAreSums(s.children, groups, g);
      assert g in ranked <==> g in multiset(kept);
    }
    var top := Top(ranked, n);
    var total := SumSizes(ranked);
    if ignore == [] {
      UnignoredNothing(groups);
    }
    return Ok(Report(s.section, ranked, top, total));
  }

  /** Adding the next section's report keeps every report describing its
      own section. */
  lemma DescribesAppend(reports: seq<Report>, chosen: seq<Objectfile>, ignore: seq<string>, n: int, rep: Report)
    requires |reports| < |chosen|
    requires forall j :: 0 <= j < |reports| ==> Describes(reports[j], chosen[j], ignore, n)
    requires Describes(rep, chosen[|reports|], ignore, n)
    ensures forall j :: 0 <= j < |reports| + 1 ==> Describes((reports + [rep])[j], chosen[j], ignore, n)
  {
    forall j | 0 <= j < |reports| + 1
      ensures Describes((reports + [rep])[j], chosen[j], ignore, n)
    {
      if j < |reports| {
        assert (reports + [rep])[j] == reports[j];
      } else {
        assert (reports + [rep])[j] == rep;
      }
    }
  }

  /** The `for s in whitelistedSections` loop: one report per whitelisted
      section, in order, or the failure of the first section that fails. */
  method Aggregate(sections: seq<Objectfile>, ignore: seq<string>, n: int) returns (r: Result<seq<Report>, AggregateError>)
    ensures r.Err? <==> exists i :: 0 <= i < |Whitelisted(sections)| && Unorderable(Whitelisted(sections)[i].children)
    ensures r.Err? ==> r.error == UnorderableBasepath
    ensures r.Ok? ==> |r.value| == |Whitelisted(sections)|
    ensures r.Ok? ==> forall i :: 0 <= i < |r.value| ==> Describes(r.value[i], Whitelisted(sections)[i], ignore, n)
  {
    var chosen := Whitelisted(sections);
    var reports: seq<Report> := [];
    var i := 0;
    while i < |chosen|
      invariant 0 <= i <= |chosen|
      invariant |reports| == i
      invariant forall j :: 0 <= j < i ==> Describes(reports[j], chosen[j], ignore, n)
      invariant forall j :: 0 <= j < i ==> !Unorderable(chosen[j].children)
    {
      var one := ReportSection(chosen[i], ignore, n);
      if one.Err? {
        assert 0 <= i < |Whitelisted(sections)| && Unorderable(Whitelisted(sections)[i].children);
        return Err(one.error);
      }
      DescribesAppend(reports, chosen, ignore, n, one.value);
      reports := reports + [one.value];
      i := i + 1;
    }
    return Ok(reports);
  }
}
