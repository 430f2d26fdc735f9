/**
  The ionosphere-free carrier table grouped by system (`iono_free_frequencies` in
  native/sidereon_nif/src/iono.rs): a map filled entry by entry and read out in
  key order.
*/
module CarrierTable {

  /** A system's one-character key, as its code point. */
  type Letter = nat

  datatype Band = Band(name: string, frequencyHz: real)

  datatype Entry = Entry(system: Letter, band: Band)

  type Group = (Letter, seq<Band>)

  /** The bands of one system, in table order. */
  function BandsOf(table: seq<Entry>, k: Letter): seq<Band> {
    if table == [] then []
    else
      var n := |table| - 1;
      BandsOf(table[..n], k) + if table[n].system == k then [table[n].band] else []
  }

  /** The groups written out again as table entries. */
  function Flatten(groups: seq<Group>): seq<Entry> {
    if groups == [] then []
    else
      var n := |groups| - 1;
      Flatten(groups[..n]) + Entries(groups[n])
  }

  function Entries(g: Group): (r: seq<Entry>)
    ensures |r| == |g.1|
  {
    seq(|g.1|, i requires 0 <= i < |g.1| => Entry(g.0, g.1[i]))
  }

  predicate Increasing(groups: seq<Group>) {
    forall i, j :: 0 <= i < j < |groups| ==> groups[i].0 < groups[j].0
  }

  predicate BySystem(table: seq<Entry>) {
    forall i, j :: 0 <= i < j < |table| ==> table[i].system <= table[j].system
  }

  /** `sorted` is `table` in order of system, each system's entries in table order. */
  ghost predicate StableSortOf(table: seq<Entry>, sorted: seq<Entry>) {
    BySystem(sorted) && forall k :: BandsOf(sorted, k) == BandsOf(table, k)
  }

  lemma {:induction false} BandsConcat(a: seq<Entry>, b: seq<Entry>, k: Letter)
    ensures BandsOf(a + b, k) == BandsOf(a, k) + BandsOf(b, k)
  {
    if b == [] {
      assert a + b == a;
    } else {
      var n := |b| - 1;
      BandsConcat(a, b[..n], k);
      assert (a + b)[..|a| + n] == a + b[..n];
    }
  }

  lemma {:induction false} BandsPresent(table: seq<Entry>, k: Letter)
    ensures BandsOf(table, k) != [] <==> exists i :: 0 <= i < |table| && table[i].system == k
  {
    if table != [] {
      var n := |table| - 1;
      BandsPresent(table[..n], k);
      assert table[n].system == k ||
             (forall i :: 0 <= i < |table| && table[i].system == k ==> table[..n][i] == table[i]);
    }
  }

  lemma {:induction false} LeastKey(keys: set<Letter>) returns (k: Letter)
    requires keys != {}
    ensures k in keys && forall j :: j in keys ==> k <= j
    decreases |keys|
  {
    var any :| any in keys;
    k := any;
    if keys != {any} {
      var rest := LeastKey(keys - {any});
      k := if rest < any then rest else any;
      assert forall j :: j in keys ==> j == any || j in keys - {any};
    }
  }

  /** The map holds a system's bands, in table order, exactly for the systems in the table. */
  ghost predicate Holds(bySystem: map<Letter, seq<Band>>, table: seq<Entry>) {
    forall k :: (k in bySystem <==> BandsOf(table, k) != []) && (k in bySystem ==> bySystem[k] == BandsOf(table, k))
  }

  method Fill(table: seq<Entry>) returns (bySystem: map<Letter, seq<Band>>)
    ensures Holds(bySystem, table)
  {
    bySystem := map[];
    for i := 0 to |table|
      invariant Holds(bySystem, table[..i])
    {
      assert table[..i + 1][..i] == table[..i];
      var k := table[i].system;
      bySystem := bySystem[k := (if k in bySystem then bySystem[k] else []) + [table[i].band]];
    }
    assert table[..|table|] == table;
  }

  /** Key `k` has its group among `groups`. */
  ghost predicate Grouped(groups: seq<Group>, k: Letter) {
    exists i :: 0 <= i < |groups| && groups[i].0 == k
  }

  /** The groups read out so far are the map's, in order, below every key left. */
  ghost predicate ReadSoFar(bySystem: map<Letter, seq<Band>>, groups: seq<Group>, left: set<Letter>) {
    && left <= bySystem.Keys
    && Increasing(groups)
    && (forall i :: 0 <= i < |groups| ==> groups[i].0 in bySystem && groups[i].1 == bySystem[groups[i].0])
    && (forall i, k :: 0 <= i < |groups| && k in left ==> groups[i].0 < k)
    && (forall k :: k in bySystem && k !in left ==> Grouped(groups, k))
  }

  lemma {:induction false} ReadOne(bySystem: map<Letter, seq<Band>>, groups: seq<Group>, left: set<Letter>, k: Letter)
    requires ReadSoFar(bySystem, groups, left)
    requires k in left && forall j :: j in left ==> k <= j
    ensures ReadSoFar(bySystem, groups + [(k, bySystem[k])], left - {k})
  {
    var longer := groups + [(k, bySystem[k])];
    assert forall i :: 0 <= i < |groups| ==> longer[i] == groups[i];
    forall j | j in bySystem && j !in left - {k}
      ensures Grouped(longer, j)
    {
      GroupedPush(groups, (k, bySystem[k]), j);
    }
  }

  lemma {:induction false} GroupedPush(groups: seq<Group>, g: Group, j: Letter)
    ensures Grouped(groups + [g], j) <==> j == g.0 || Grouped(groups, j)
  {
    var longer := groups + [g];
    assert forall i :: 0 <= i < |groups| ==> longer[i] == groups[i];
    assert longer[|groups|] == g;
  }

  method ReadOut(bySystem: map<Letter, seq<Band>>) returns (groups: seq<Group>)
    ensures ReadSoFar(bySystem, groups, {})
  {
    var left := bySystem.Keys;
    groups := [];
    while left != {}
      invariant ReadSoFar(bySystem, groups, left)
      decreases |left|
    {
      ghost var least := LeastKey(left);
      var k :| k in left && forall j :: j in left ==> k <= j;
      ReadOne(bySystem, groups, left, k);
      groups := groups + [(k, bySystem[k])];
      left := left - {k};
    }
  }

  /** Groups hold exactly their system's bands in table order, no group is empty,
      keys strictly increase, and no entry is left without a group. */
  ghost predicate Groups(table: seq<Entry>, groups: seq<Group>) {
    && Increasing(groups)
    && (forall i :: 0 <= i < |groups| ==> groups[i].1 == BandsOf(table, groups[i].0) != [])
    && (forall j :: 0 <= j < |table| ==> Grouped(groups, table[j].system))
  }

  method GroupBySystem(table: seq<Entry>) returns (groups: seq<Group>)
    ensures Groups(table, groups)
    ensures StableSortOf(table, Flatten(groups))
  {
    var bySystem := Fill(table);
    groups := ReadOut(bySystem);
    forall j | 0 <= j < |table|
      ensures Grouped(groups, table[j].system)
    {
      BandsPresent(table, table[j].system);
    }
    GroupingSorts(table, groups);
  }

  lemma {:induction false} EntriesBands(g: Group, k: Letter)
    ensures BandsOf(Entries(g), k) == if k == g.0 then g.1 else []
    decreases |g.1|
  {
    if g.1 != [] {
      var n := |g.1| - 1;
      var front: Group := (g.0, g.1[..n]);
      EntriesBands(front, k);
      assert Entries(g)[..n] == Entries(front);
      assert g.1 == g.1[..n] + [g.1[n]];
    }
  }

  lemma {:induction false} FlattenAbsent(groups: seq<Group>, k: Letter)
    requires forall i :: 0 <= i < |groups| ==> groups[i].0 != k
    ensures BandsOf(Flatten(groups), k) == []
  {
    if groups != [] {
      var n := |groups| - 1;
      FlattenAbsent(groups[..n], k);
      EntriesBands(groups[n], k);
      BandsConcat(Flatten(groups[..n]), Entries(groups[n]), k);
    }
  }

  /** The bands a key has in the flattened groups are those of its own group. */
  lemma {:induction false} FlattenBands(groups: seq<Group>, i: nat)
    requires Increasing(groups) && i < |groups|
    ensures BandsOf(Flatten(groups), groups[i].0) == groups[i].1
    decreases |groups|
  {
    var n := |groups| - 1;
    var k := groups[i].0;
    EntriesBands(groups[n], k);
    BandsConcat(Flatten(groups[..n]), Entries(groups[n]), k);
    if i < n { FlattenBands(groups[..n], i); } else { FlattenAbsent(groups[..n], k); }
  }

  lemma {:induction false} FlattenInOrder(groups: seq<Group>)
    requires Increasing(groups)
    ensures BySystem(Flatten(groups))
    ensures forall j :: 0 <= j < |Flatten(groups)| ==>
              exists i :: 0 <= i < |groups| && groups[i].0 == Flatten(groups)[j].system
  {
    if groups != [] {
      var n := |groups| - 1;
      FlattenInOrder(groups[..n]);
      var front, back := Flatten(groups[..n]), Entries(groups[n]);
      forall j | 0 <= j < |front|
        ensures front[j].system < groups[n].0
        ensures exists i :: 0 <= i < |groups| && groups[i].0 == front[j].system
      {
        var i :| 0 <= i < n && groups[..n][i].0 == front[j].system;
        assert groups[i].0 == front[j].system;
      }
      assert forall j :: 0 <= j < |back| ==> back[j].system == groups[n].0;
    }
  }

  /** A grouped table flattens to the stable sort of the table by system. */
  lemma {:induction false} GroupingSorts(table: seq<Entry>, groups: seq<Group>)
    requires Groups(table, groups)
    ensures StableSortOf(table, Flatten(groups))
  {
    FlattenInOrder(groups);
    forall k
      ensures BandsOf(Flatten(groups), k) == BandsOf(table, k)
    {
      BandsPresent(table, k);
      if Grouped(groups, k) {
        var i :| 0 <= i < |groups| && groups[i].0 == k;
        FlattenBands(groups, i);
      } else {
        FlattenAbsent(groups, k);
      }
    }
  }

  lemma {:induction false} FirstBand(table: seq<Entry>, k: Letter)
    requires table != []
    ensures BandsOf(table, k) == (if table[0].system == k then [table[0].band] else []) + BandsOf(table[1..], k)
  {
    assert table == [table[0]] + table[1..];
    BandsConcat([table[0]], table[1..], k);
    assert [table[0]][..0] == [];
  }

  /** Everything in an ordered table is at or after its first system. */
  lemma {:induction false} FirstIsLeast(a: seq<Entry>, k: Letter)
    requires a != [] && BySystem(a) && BandsOf(a, k) != []
    ensures a[0].system <= k
  {
    BandsPresent(a, k);
    var i :| 0 <= i < |a| && a[i].system == k;
  }

  lemma {:induction false} HeadsAgree(a: seq<Entry>, b: seq<Entry>)
    requires a != [] && b != [] && BySystem(a) && BySystem(b)
    requires BandsOf(a, a[0].system) == BandsOf(b, a[0].system)
    requires BandsOf(a, b[0].system) == BandsOf(b, b[0].system)
    ensures a[0] == b[0]
  {
    FirstBand(a, a[0].system);
    FirstBand(b, b[0].system);
    FirstIsLeast(b, a[0].system);
    FirstIsLeast(a, b[0].system);
    assert BandsOf(a, a[0].system)[0] == a[0].band && BandsOf(b, b[0].system)[0] == b[0].band;
  }

  lemma {:induction false} TailsAgree(a: seq<Entry>, b: seq<Entry>, k: Letter)
    requires a != [] && b != [] && a[0] == b[0] && BandsOf(a, k) == BandsOf(b, k)
    ensures BandsOf(a[1..], k) == BandsOf(b[1..], k)
  {
    FirstBand(a, k);
    FirstBand(b, k);
    var head := if a[0].system == k then [a[0].band] else [];
    assert BandsOf(a, k)[|head|..] == BandsOf(a[1..], k);
    assert BandsOf(b, k)[|head|..] == BandsOf(b[1..], k);
  }

  /** A stable sort is unique, so grouping loses, repeats and moves nothing. */
  lemma {:induction false} StableSortIsUnique(table: seq<Entry>, a: seq<Entry>, b: seq<Entry>)
    requires StableSortOf(table, a) && StableSortOf(table, b)
    ensures a == b
    decreases |a|
  {
    if a == [] {
      if b != [] { BandsPresent(b, b[0].system); }
    } else if b == [] {
      BandsPresent(a, a[0].system);
    } else {
      HeadsAgree(a, b);
      forall k
        ensures BandsOf(a[1..], k) == BandsOf(b[1..], k)
      {
        TailsAgree(a, b, k);
      }
      StableSortIsUnique(b[1..], a[1..], b[1..]);
      assert a == [a[0]] + a[1..] && b == [b[0]] + b[1..];
    }
  }
}
