/** Locations inside a JSON tree, writing at a location, and the wildcard paths that name sets of locations. */
module JsonPaths {
  import opened Sorting
  import opened JsonTree

  datatype Step = Key(k: string) | Index(i: nat)
  type Loc = seq<Step>

  /** The value a step leads to; `Undefined` when there is none. */
  function Down(v: Json, s: Step): Json {
    match s
    case Key(k) => Get(v, k)
    case Index(i) => if v.Arr? && i < |v.items| then v.items[i] else Undefined
  }

  function At(v: Json, loc: Loc): Json
    decreases |loc|
  {
    if loc == [] then v else At(Down(v, loc[0]), loc[1..])
  }

  /** What can be said of a place without looking below it. */
  datatype Shape = Absent | Scalar(v: Json) | ArrayOf(n: nat) | Object

  function ShapeOf(v: Json): Shape {
    match v
    case Undefined => Absent
    case Arr(items) => ArrayOf(|items|)
    case Obj(_) => Object
    case _ => Scalar(v)
  }

  function Without(fs: seq<Field>, k: string): seq<Field> {
    if fs == [] then []
    else if fs[0].key == k then Without(fs[1..], k)
    else [fs[0]] + Without(fs[1..], k)
  }

  /** The tree with the value at a location replaced; writing `Undefined` deletes a field. A location that is not there stays so. */
  function Put(v: Json, loc: Loc, x: Json): Json
    decreases |loc|
  {
    if loc == [] then x
    else
      var child := Down(v, loc[0]);
      if child == Undefined then v
      else match loc[0]
        case Key(k) =>
          if |loc| == 1 && x == Undefined then Obj(Without(v.fields, k)) else Obj(SetField(v.fields, k, Put(child, loc[1..], x)))
        case Index(i) => Arr(v.items[i := Put(child, loc[1..], x)])
  }

  predicate Comparable(l: Loc, m: Loc) { l <= m || m <= l }

  lemma {:induction false} WithoutFind(fs: seq<Field>, k: string, j: string)
    ensures Find(Without(fs, k), j) == if j == k then Undefined else Find(fs, j)
  {
    if fs != [] {
      WithoutFind(fs[1..], k, j);
      if fs[0].key != k { assert ([fs[0]] + Without(fs[1..], k))[1..] == Without(fs[1..], k); }
    }
  }

  /** One step after a write. */
  lemma PutDown(v: Json, loc: Loc, x: Json, s: Step)
    requires loc != [] && Down(v, loc[0]) != Undefined && (x == Undefined ==> loc[|loc| - 1].Key?)
    ensures Down(Put(v, loc, x), s) == if s == loc[0] then Put(Down(v, loc[0]), loc[1..], x) else Down(v, s)
    ensures |loc| > 1 || x != Undefined ==> ShapeOf(Put(v, loc, x)) == ShapeOf(v)
    ensures ShapeOf(Put(v, loc, x)) == ShapeOf(v)
  {
    var child := Down(v, loc[0]);
    match loc[0]
    case Key(k) =>
      if |loc| == 1 && x == Undefined {
        if s.Key? { WithoutFind(v.fields, k, s.k); }
      } else {
        if s.Key? { SetFieldFind(v.fields, k, Put(child, loc[1..], x), s.k); }
      }
    case Index(i) =>
  }

  /** A write shows at its location, keeps the shape above it, and changes nothing beside it. */
  lemma {:induction false} PutAt(v: Json, loc: Loc, x: Json, l: Loc)
    requires At(v, loc) != Undefined && (x == Undefined && loc != [] ==> loc[|loc| - 1].Key?)
    ensures At(Put(v, loc, x), loc) == x
    ensures !Comparable(loc, l) ==> At(Put(v, loc, x), l) == At(v, l)
    ensures !(loc <= l) ==> ShapeOf(At(Put(v, loc, x), l)) == ShapeOf(At(v, l))
    decreases |loc|
  {
    if loc != [] {
      if Down(v, loc[0]) == Undefined { NothingBelow(loc[1..]); }
      PutDown(v, loc, x, loc[0]);
      PutAt(Down(v, loc[0]), loc[1..], x, if l == [] then [] else l[1..]);
      if l != [] {
        PutDown(v, loc, x, l[0]);
        if l[0] == loc[0] {
          assert loc <= l <==> loc[1..] <= l[1..];
          assert l <= loc <==> l[1..] <= loc[1..];
        }
      }
    }
  }

  lemma {:induction false} NothingBelow(loc: Loc)
    ensures At(Undefined, loc) == Undefined
  {
    if loc != [] { NothingBelow(loc[1..]); }
  }

  lemma {:induction false} AtConcat(v: Json, l: Loc, m: Loc)
    ensures At(v, l + m) == At(At(v, l), m)
    decreases |l|
  {
    if l == [] {
      assert l + m == m;
    } else {
      AtConcat(Down(v, l[0]), l[1..], m);
      assert (l + m)[1..] == l[1..] + m;
    }
  }

  // ---------------------------------------------------------------- wildcard paths

  /** A path segment `key` or `key[*]`. */
  datatype Segment = Seg(key: string, wild: bool)
  type Path = seq<Segment>

  /** The concrete locations a path stands for. */
  predicate Matches(path: Path, loc: Loc) {
    if path == [] then loc == []
    else
      var n, seg := |path| - 1, path[|path| - 1];
      if seg.wild then
        |loc| >= 2 && loc[|loc| - 1].Index? && loc[|loc| - 2] == Key(seg.key) && Matches(path[..n], loc[..|loc| - 2])
      else
        |loc| >= 1 && loc[|loc| - 1] == Key(seg.key) && Matches(path[..n], loc[..|loc| - 1])
  }

  /** Paths that part at a key, after the same beginning. */
  predicate Diverge(p: Path, q: Path) {
    p != [] && q != [] && (p[0].key != q[0].key || (p[0] == q[0] && Diverge(p[1..], q[1..])))
  }

  /** Steps taken by the first i segments. */
  function Offset(p: Path, i: nat): nat
    requires i <= |p|
  {
    if i == 0 then 0 else Offset(p, i - 1) + if p[i - 1].wild then 2 else 1
  }

  lemma {:induction false} MatchAt(p: Path, loc: Loc, i: nat)
    requires Matches(p, loc) && i < |p|
    ensures |loc| == Offset(p, |p|) && Offset(p, i) < |loc| && loc[Offset(p, i)] == Key(p[i].key)
  {
    var n := |p| - 1;
    var init := if p[n].wild then loc[..|loc| - 2] else loc[..|loc| - 1];
    OffsetPrefix(p, n, n);
    OffsetPrefix(p, n, i);
    if n > 0 { MatchAt(p[..n], init, if i < n then i else 0); }
    if i == n { assert loc[|init|] == Key(p[n].key); }
  }

  lemma {:induction false} OffsetPrefix(p: Path, n: nat, i: nat)
    requires i <= n <= |p|
    ensures Offset(p[..n], i) == Offset(p, i)
  {
    if i > 0 { OffsetPrefix(p, n, i - 1); }
  }

  lemma {:induction false} OffsetSame(p: Path, q: Path, i: nat)
    requires i <= |p| && i <= |q| && p[..i] == q[..i]
    ensures Offset(p, i) == Offset(q, i)
  {
    if i > 0 {
      assert p[i - 1] == p[..i][i - 1] == q[..i][i - 1];
      assert p[..i - 1] == p[..i][..i - 1] == q[..i][..i - 1] == q[..i - 1];
      OffsetSame(p, q, i - 1);
    }
  }

  lemma {:induction false} DivergeWhere(p: Path, q: Path) returns (i: nat)
    requires Diverge(p, q)
    ensures i < |p| && i < |q| && p[..i] == q[..i] && p[i].key != q[i].key
  {
    if p[0].key != q[0].key {
      i := 0;
    } else {
      var j := DivergeWhere(p[1..], q[1..]);
      i := j + 1;
      assert p[..i] == [p[0]] + p[1..][..j] && q[..i] == [q[0]] + q[1..][..j];
    }
  }

  /** Locations of diverging paths never lie above or below one another. */
  lemma DivergingApart(p: Path, q: Path, l: Loc, m: Loc)
    requires Diverge(p, q) && Matches(p, l) && Matches(q, m)
    ensures !Comparable(l, m)
  {
    var i := DivergeWhere(p, q);
    MatchAt(p, l, i);
    MatchAt(q, m, i);
    OffsetSame(p, q, i);
    assert l[Offset(p, i)] != m[Offset(p, i)];
  }

  /** Two locations of one path are comparable only if they are the same. */
  lemma SamePathApart(p: Path, l: Loc, m: Loc)
    requires Matches(p, l) && Matches(p, m) && l != m
    ensures !Comparable(l, m)
  {
    if p != [] {
      MatchAt(p, l, 0);
      MatchAt(p, m, 0);
    }
  }

  // ---------------------------------------------------------------- resolving a path

  function Parent(loc: Loc): Loc
    requires loc != []
  {
    loc[..|loc| - 1]
  }

  /** The walk reaches a location when its last step starts inside a container of the right kind. */
  predicate Reached(root: Json, loc: Loc) {
    loc == [] ||
    match loc[|loc| - 1]
    case Key(_) => IsObject(At(root, Parent(loc)))
    case Index(i) => At(root, Parent(loc)).Arr? && i < |At(root, Parent(loc)).items|
  }

  ghost predicate Resolves(root: Json, path: Path, locs: seq<Loc>) {
    Distinct(locs) && forall loc :: loc in locs <==> Matches(path, loc) && Reached(root, loc)
  }

  lemma AtChild(root: Json, loc: Loc, s: Step)
    ensures At(root, loc + [s]) == Down(At(root, loc), s) && Parent(loc + [s]) == loc
  {
    AtConcat(root, loc, [s]);
    assert At(At(root, loc), [s]) == At(Down(At(root, loc), s), [s][1..]) == Down(At(root, loc), s);
  }

  lemma ObjectIsReached(root: Json, loc: Loc)
    requires IsObject(At(root, loc))
    ensures Reached(root, loc)
  {
    if loc != [] {
      AtChild(root, Parent(loc), loc[|loc| - 1]);
      assert Parent(loc) + [loc[|loc| - 1]] == loc;
    }
  }

  /** The cursors after one more segment. */
  method Advance(root: Json, path: Path, i: nat, cursors: seq<Loc>) returns (next: seq<Loc>)
    requires i < |path| && Resolves(root, path[..i], cursors)
    ensures Resolves(root, path[..i + 1], next) && next == NextCursors(root, path[i], cursors)
  {
    hide StepFrom, StepsFrom, NextCursors, At, Matches, Reached;
    var seg := path[i];
    next := [];
    NoCursors(root, seg);
    for c := 0 to |cursors|
      invariant Distinct(next)
      invariant forall l :: l in next <==> StepsFrom(root, seg, l, cursors[..c])
      invariant next == NextCursors(root, seg, cursors[..c])
    {
      var cur := cursors[c];
      var container := At(root, cur);
      ghost var before := next;
      assert cursors[..c + 1] == cursors[..c] + [cur];
      if IsObject(container) {
        if seg.wild {
          var arr := Get(container, seg.key);
          if arr.Arr? {
            for j := 0 to |arr.items|
              invariant next == before + Elements(cur, seg.key, j)
            {
              next := next + [cur + [Key(seg.key), Index(j)]];
            }
          }
        } else {
          next := next + [cur + [Key(seg.key)]];
        }
      }
      StepExtends(root, seg, cursors, c, before, next);
      NextOneMore(root, seg, cursors[..c], cur);
    }
    assert cursors[..|cursors|] == cursors;
    StepsComplete(root, path, i, cursors, next);
  }

  lemma NoCursors(root: Json, seg: Segment)
    ensures NextCursors(root, seg, []) == [] && forall l :: !StepsFrom(root, seg, l, [])
  {
  }

  /** Where one segment leads from one cursor, in order. */
  function StepsOf(root: Json, seg: Segment, cur: Loc): seq<Loc> {
    var container := At(root, cur);
    if !IsObject(container) then []
    else if !seg.wild then [cur + [Key(seg.key)]]
    else if Get(container, seg.key).Arr? then Elements(cur, seg.key, |Get(container, seg.key).items|)
    else []
  }

  function NextCursors(root: Json, seg: Segment, cursors: seq<Loc>): seq<Loc> {
    if cursors == [] then [] else NextCursors(root, seg, cursors[..|cursors| - 1]) + StepsOf(root, seg, cursors[|cursors| - 1])
  }

  lemma NextOneMore(root: Json, seg: Segment, cursors: seq<Loc>, cur: Loc)
    ensures NextCursors(root, seg, cursors + [cur]) == NextCursors(root, seg, cursors) + StepsOf(root, seg, cur)
  {
    hide StepsOf;
    assert (cursors + [cur])[..|cursors|] == cursors;
  }

  function Cursors(root: Json, path: Path): seq<Loc> {
    if path == [] then [[]] else NextCursors(root, path[|path| - 1], Cursors(root, path[..|path| - 1]))
  }

  /** The targets of a path, in the order the walk finds them. */
  function Targets(root: Json, path: Path): seq<Loc> {
    if path != [] && path[|path| - 1].wild then [] else Cursors(root, path)
  }

  function Elements(cur: Loc, key: string, n: nat): (r: seq<Loc>)
    ensures |r| == n && forall j :: 0 <= j < n ==> r[j] == cur + [Key(key), Index(j)]
  {
    seq(n, j requires 0 <= j < n => cur + [Key(key), Index(j)])
  }

  /** l is one segment below cur. */
  predicate StepFrom(root: Json, seg: Segment, l: Loc, cur: Loc) {
    && IsObject(At(root, cur))
    && if seg.wild then
         && |l| == |cur| + 2 && l[..|cur|] == cur && l[|cur|] == Key(seg.key) && l[|cur| + 1].Index?
         && Get(At(root, cur), seg.key).Arr? && l[|cur| + 1].i < |Get(At(root, cur), seg.key).items|
       else l == cur + [Key(seg.key)]
  }

  predicate StepsFrom(root: Json, seg: Segment, l: Loc, cursors: seq<Loc>) {
    exists c :: 0 <= c < |cursors| && StepFrom(root, seg, l, cursors[c])
  }

  lemma StepExtends(root: Json, seg: Segment, cursors: seq<Loc>, c: nat, before: seq<Loc>, next: seq<Loc>)
    requires c < |cursors| && Distinct(cursors) && Distinct(before)
    requires forall l :: l in before <==> StepsFrom(root, seg, l, cursors[..c])
    requires next == before + StepsOf(root, seg, cursors[c])
    ensures Distinct(next) && forall l :: l in next <==> StepsFrom(root, seg, l, cursors[..c + 1])
  {
    var cur := cursors[c];
    var added := next[|before|..];
    assert next == before + added;
    forall l ensures l in added <==> StepFrom(root, seg, l, cur) {
      if StepFrom(root, seg, l, cur) && seg.wild {
        var last: Step := l[|cur| + 1];
        assert l == cur + [Key(seg.key), last];
        assert added[last.i] == l;
      }
    }
    forall l ensures StepsFrom(root, seg, l, cursors[..c + 1]) <==> StepsFrom(root, seg, l, cursors[..c]) || StepFrom(root, seg, l, cur) {
      StepsSplit(root, seg, l, cursors, c);
    }
    forall l | l in before ensures l !in added {
      if StepFrom(root, seg, l, cur) {
        var d :| 0 <= d < c && StepFrom(root, seg, l, cursors[..c][d]);
        StepOrigin(root, seg, l, cursors[d], cur);
      }
    }
    forall a, b | 0 <= a < b < |added| ensures added[a] != added[b] {
      assert added[a][|cur| + 1] != added[b][|cur| + 1];
    }
    DistinctConcat(before, added);
  }

  lemma DistinctConcat(a: seq<Loc>, b: seq<Loc>)
    requires Distinct(a) && Distinct(b) && forall l :: l in a ==> l !in b
    ensures Distinct(a + b)
  {
    forall i, j | 0 <= i < |a| && 0 <= j < |b| ensures a[i] != b[j] { assert a[i] in a && b[j] in b; }
  }

  lemma StepsSplit(root: Json, seg: Segment, l: Loc, cursors: seq<Loc>, c: nat)
    requires c < |cursors|
    ensures StepsFrom(root, seg, l, cursors[..c + 1]) <==> StepsFrom(root, seg, l, cursors[..c]) || StepFrom(root, seg, l, cursors[c])
  {
    hide StepFrom;
    if StepsFrom(root, seg, l, cursors[..c]) {
      var d :| 0 <= d < c && StepFrom(root, seg, l, cursors[..c][d]);
      assert StepFrom(root, seg, l, cursors[..c + 1][d]);
    }
    if StepFrom(root, seg, l, cursors[c]) { assert StepFrom(root, seg, l, cursors[..c + 1][c]); }
  }

  lemma StepOrigin(root: Json, seg: Segment, l: Loc, a: Loc, b: Loc)
    requires StepFrom(root, seg, l, a) && StepFrom(root, seg, l, b)
    ensures a == b
  {
    if !seg.wild {
      assert a == l[..|l| - 1] && b == l[..|l| - 1];
    }
  }

  /** The steps from resolved cursors are exactly the reached matches of the longer path. */
  lemma StepsComplete(root: Json, path: Path, i: nat, cursors: seq<Loc>, next: seq<Loc>)
    requires i < |path| && Resolves(root, path[..i], cursors) && Distinct(next)
    requires forall l :: l in next <==> StepsFrom(root, path[i], l, cursors)
    ensures Resolves(root, path[..i + 1], next)
  {
    var longer := path[..i + 1];
    forall l ensures l in next <==> Matches(longer, l) && Reached(root, l) {
      if l in next { StepIsMatch(root, path, i, cursors, l); }
      if Matches(longer, l) && Reached(root, l) { MatchIsStep(root, path, i, cursors, l); }
    }
  }

  lemma StepIsMatch(root: Json, path: Path, i: nat, cursors: seq<Loc>, l: Loc)
    requires i < |path| && Resolves(root, path[..i], cursors) && StepsFrom(root, path[i], l, cursors)
    ensures Matches(path[..i + 1], l) && Reached(root, l)
  {
    hide At, Reached;
    var c :| 0 <= c < |cursors| && StepFrom(root, path[i], l, cursors[c]);
    assert path[..i + 1][..i] == path[..i];
    assert cursors[c] in cursors;
    StepReaches(root, path[i], l, cursors[c]);
    assert l[..|cursors[c]|] == cursors[c];
  }

  lemma MatchIsStep(root: Json, path: Path, i: nat, cursors: seq<Loc>, l: Loc)
    requires i < |path| && Resolves(root, path[..i], cursors) && Matches(path[..i + 1], l) && Reached(root, l)
    ensures StepsFrom(root, path[i], l, cursors)
  {
    var seg := path[i];
    assert path[..i + 1][..i] == path[..i];
    var cur := l[..|l| - (if seg.wild then 2 else 1)];
    ReachStepsBack(root, seg, l, cur);
    ObjectIsReached(root, cur);
    assert cur in cursors;
    var c :| 0 <= c < |cursors| && cursors[c] == cur;
  }

  lemma StepReaches(root: Json, seg: Segment, l: Loc, cur: Loc)
    requires StepFrom(root, seg, l, cur)
    ensures Reached(root, l)
  {
    if seg.wild {
      AtChild(root, cur, Key(seg.key));
      assert Parent(l) == cur + [Key(seg.key)];
    } else {
      assert Parent(l) == cur;
    }
  }

  lemma ReachStepsBack(root: Json, seg: Segment, l: Loc, cur: Loc)
    requires Reached(root, l) && |l| == |cur| + (if seg.wild then 2 else 1) && l[..|cur|] == cur && l[|cur|] == Key(seg.key)
    requires seg.wild ==> l[|cur| + 1].Index?
    ensures StepFrom(root, seg, l, cur)
  {
    if seg.wild {
      AtChild(root, cur, Key(seg.key));
      assert Parent(l) == cur + [Key(seg.key)];
    } else {
      assert Parent(l) == cur && l == cur + [Key(seg.key)];
    }
  }

  /** The targets of a path that ends in a key; a path that ends in a wildcard has none. */
  ghost predicate TargetsOf(root: Json, path: Path, targets: seq<Loc>) {
    if path != [] && path[|path| - 1].wild then targets == [] else Resolves(root, path, targets)
  }

  method ResolveTargets(root: Json, path: Path) returns (targets: seq<Loc>)
    ensures TargetsOf(root, path, targets) && targets == Targets(root, path)
  {
    targets := [[]];
    assert path[..0] == [];
    for i := 0 to |path|
      invariant Resolves(root, path[..i], targets) && targets == Cursors(root, path[..i])
    {
      assert path[..i + 1][..i] == path[..i];
      targets := Advance(root, path, i, targets);
    }
    assert path[..|path|] == path;
    if path != [] && path[|path| - 1].wild { targets := []; }
  }
}
