/** References into a JSON tree. A JavaScript expression such as
    `request.imp[i].banner` names an object inside the request; here it is a
    path of property and index steps from the root. Reading through a path is
    `GetAt` (optional chaining: a missing step gives `undefined`), and an in-place
    change of the object it names is `UpdateAt`. */
module Paths {
  import opened JsonValues

  datatype Step = Key(name: string) | Index(i: nat)
  type Path = seq<Step>

  /** The value one step below `j`, if there is one. */
  function Child(j: Json, s: Step): Option<Json> {
    match s
    case Key(k) => Field(j, k)
    case Index(i) => if j.JArr? && i < |j.elems| then Some(j.elems[i]) else None
  }

  /** `j` with the existing child at step `s` replaced by `c`. */
  function WithChild(j: Json, s: Step, c: Json): Json {
    match s
    case Key(k) => if j.JObj? && k in j.fields then JObj(j.fields[k := c]) else j
    case Index(i) => if j.JArr? && i < |j.elems| then JArr(j.elems[i := c]) else j
  }

  /** The value `p` leads to from `j`, or `None` when some step is missing. */
  function GetAt(j: Json, p: Path): Option<Json>
    decreases |p|
  {
    if p == [] then Some(j)
    else match Child(j, p[0])
      case None => None
      case Some(c) => GetAt(c, p[1..])
  }

  /** `j` after the value that `p` leads to has been changed by `f`; `j`
      itself when `p` leads nowhere. */
  function UpdateAt(j: Json, p: Path, f: Json -> Json): Json
    decreases |p|
  {
    if p == [] then f(j)
    else match Child(j, p[0])
      case None => j
      case Some(c) => WithChild(j, p[0], UpdateAt(c, p[1..], f))
  }

  /** The change "apply `f` at `q` below here". */
  function AtFn(q: Path, f: Json -> Json): Json -> Json {
    x => UpdateAt(x, q, f)
  }

  predicate Prefix(p: Path, q: Path) {
    |p| <= |q| && q[..|p|] == p
  }

  /** Two paths are comparable when one leads through the other. */
  predicate Comparable(p: Path, q: Path) {
    Prefix(p, q) || Prefix(q, p)
  }

  lemma PrefixCons(s: Step, p: Path, q: Path)
    ensures Prefix([s] + p, [s] + q) <==> Prefix(p, q)
  {
    if Prefix(p, q) {
      assert ([s] + q)[..|[s] + p|] == [s] + q[..|p|];
    }
    if Prefix([s] + p, [s] + q) {
      assert q[..|p|] == ([s] + q)[..|[s] + p|][1..];
    }
  }

  lemma ChildOfWithChild(j: Json, s: Step, c: Json)
    requires Child(j, s).Some?
    ensures Child(WithChild(j, s, c), s) == Some(c)
  {
  }

  lemma ChildOfWithOtherChild(j: Json, s: Step, t: Step, c: Json)
    requires s != t
    ensures Child(WithChild(j, s, c), t) == Child(j, t)
  {
  }

  /** Reading through `p + q` is reading `q` below what `p` leads to. */
  lemma {:induction false} GetAtConcat(j: Json, p: Path, q: Path)
    ensures GetAt(j, p + q) == match GetAt(j, p) case None => None case Some(x) => GetAt(x, q)
    decreases |p|
  {
    if p == [] {
      assert p + q == q;
    } else {
      assert (p + q)[0] == p[0] && (p + q)[1..] == p[1..] + q;
      match Child(j, p[0])
      case None =>
      case Some(c) => GetAtConcat(c, p[1..], q);
    }
  }

  /** What lies at and below the changed place is what `f` made of it. */
  lemma {:induction false} UpdateAtBelow(j: Json, p: Path, f: Json -> Json, q: Path)
    ensures GetAt(UpdateAt(j, p, f), p + q) == match GetAt(j, p) case None => None case Some(x) => GetAt(f(x), q)
    decreases |p|
  {
    if p == [] {
      assert p + q == q;
    } else {
      assert (p + q)[0] == p[0] && (p + q)[1..] == p[1..] + q;
      match Child(j, p[0])
      case None =>
      case Some(c) =>
        ChildOfWithChild(j, p[0], UpdateAt(c, p[1..], f));
        UpdateAtBelow(c, p[1..], f, q);
    }
  }

  /** The value at the changed place is `f` of the old one, and a missing
      place stays missing. */
  lemma UpdateAtHit(j: Json, p: Path, f: Json -> Json)
    ensures GetAt(UpdateAt(j, p, f), p) == match GetAt(j, p) case None => None case Some(x) => Some(f(x))
  {
    UpdateAtBelow(j, p, f, []);
    assert p + [] == p;
  }

  /** A change at `p` is invisible at every path not comparable with `p`. */
  lemma {:induction false} UpdateAtFrame(j: Json, p: Path, f: Json -> Json, q: Path)
    requires !Comparable(p, q)
    ensures GetAt(UpdateAt(j, p, f), q) == GetAt(j, q)
    decreases |p|
  {
    assert p != [] && q != [] by {
      assert Prefix([], q) && Prefix([], p);
    }
    match Child(j, p[0])
    case None =>
    case Some(c) =>
      var u := UpdateAt(c, p[1..], f);
      if p[0] == q[0] {
        ChildOfWithChild(j, p[0], u);
        assert p == [p[0]] + p[1..] && q == [q[0]] + q[1..];
        PrefixCons(p[0], p[1..], q[1..]);
        PrefixCons(p[0], q[1..], p[1..]);
        UpdateAtFrame(c, p[1..], f, q[1..]);
      } else {
        ChildOfWithOtherChild(j, p[0], q[0], u);
      }
  }

  lemma {:induction false} UpdateAtMissing(j: Json, p: Path, f: Json -> Json)
    requires GetAt(j, p).None?
    ensures UpdateAt(j, p, f) == j
    decreases |p|
  {
    if p != [] {
      match Child(j, p[0])
      case None =>
      case Some(c) => UpdateAtMissing(c, p[1..], f);
    }
  }

  lemma WithChildSame(j: Json, s: Step)
    requires Child(j, s).Some?
    ensures WithChild(j, s, Child(j, s).value) == j
  {
    match s
    case Key(k) => assert j.fields[k := j.fields[k]] == j.fields;
    case Index(i) => assert j.elems[i := j.elems[i]] == j.elems;
  }

  lemma WithChildTwice(j: Json, s: Step, c: Json, d: Json)
    ensures WithChild(WithChild(j, s, c), s, d) == WithChild(j, s, d)
  {
    match s
    case Key(k) =>
    case Index(i) =>
  }

  /** A change that leaves the value at `p` as it was leaves the tree as it was. */
  lemma {:induction false} UpdateAtUnchanged(j: Json, p: Path, f: Json -> Json)
    requires GetAt(j, p).Some? && f(GetAt(j, p).value) == GetAt(j, p).value
    ensures UpdateAt(j, p, f) == j
    decreases |p|
  {
    if p != [] {
      var c := Child(j, p[0]).value;
      UpdateAtUnchanged(c, p[1..], f);
      WithChildSame(j, p[0]);
    }
  }

  /** Two changes that agree on the value at `p` change the tree alike. */
  lemma {:induction false} UpdateAtAgree(j: Json, p: Path, f: Json -> Json, g: Json -> Json)
    requires GetAt(j, p).Some? && f(GetAt(j, p).value) == g(GetAt(j, p).value)
    ensures UpdateAt(j, p, f) == UpdateAt(j, p, g)
    decreases |p|
  {
    if p != [] {
      UpdateAtAgree(Child(j, p[0]).value, p[1..], f, g);
    }
  }

  /** Two successive changes at the same place are one change. */
  lemma {:induction false} UpdateAtCompose(j: Json, p: Path, f: Json -> Json, g: Json -> Json, h: Json -> Json)
    requires GetAt(j, p).Some? && h(GetAt(j, p).value) == g(f(GetAt(j, p).value))
    ensures UpdateAt(UpdateAt(j, p, f), p, g) == UpdateAt(j, p, h)
    decreases |p|
  {
    if p != [] {
      var c := Child(j, p[0]).value;
      var u := UpdateAt(c, p[1..], f);
      ChildOfWithChild(j, p[0], u);
      UpdateAtCompose(c, p[1..], f, g, h);
      WithChildTwice(j, p[0], u, UpdateAt(u, p[1..], g));
    }
  }

  /** A change at `p + q` is the change "at `q` below" made at `p`. */
  lemma {:induction false} UpdateAtSplit(j: Json, p: Path, q: Path, f: Json -> Json)
    ensures UpdateAt(j, p + q, f) == UpdateAt(j, p, AtFn(q, f))
    decreases |p|
  {
    if p == [] {
      assert p + q == q;
    } else {
      assert (p + q)[0] == p[0] && (p + q)[1..] == p[1..] + q;
      match Child(j, p[0])
      case None =>
      case Some(c) => UpdateAtSplit(c, p[1..], q, f);
    }
  }

  /** Reading one step is `Child`. */
  lemma GetAtOne(j: Json, s: Step)
    ensures GetAt(j, [s]) == Child(j, s)
  {
    assert [s][1..] == [];
  }

  lemma PrefixExtend(p: Path, q: Path, s: Step)
    requires Prefix(p, q)
    ensures Prefix(p, q + [s])
  {
    assert (q + [s])[..|p|] == q[..|p|];
  }

  /** A proper prefix of `q` extended by `q`'s next step is still a prefix. */
  lemma PrefixStep(p: Path, q: Path)
    requires Prefix(p, q) && |p| < |q|
    ensures Prefix(p + [q[|p|]], q)
  {
    assert q[..|p| + 1] == q[..|p|] + [q[|p|]];
  }

  /** Paths that differ at some depth lead through neither. */
  lemma StepsDiffer(p: Path, q: Path, d: nat)
    requires d < |p| && d < |q| && p[d] != q[d]
    ensures !Comparable(p, q)
  {
  }

  /** Equal, or both objects, or both arrays of one length: what a change deep
      inside a value keeps of it. */
  predicate SameShape(a: Option<Json>, b: Option<Json>) {
    a == b ||
    (a.Some? && b.Some? &&
     ((a.value.JObj? && b.value.JObj?) ||
      (a.value.JArr? && b.value.JArr? && |a.value.elems| == |b.value.elems|)))
  }

  /** A change strictly below the top keeps the top's shape; a primitive has
      nothing below it and is kept as it is. */
  lemma UpdateAtKeepsTop(j: Json, p: Path, f: Json -> Json)
    requires p != []
    ensures SameShape(Some(UpdateAt(j, p, f)), Some(j))
    ensures !j.JObj? && !j.JArr? ==> UpdateAt(j, p, f) == j
  {
  }

  /** A change that keeps the shape of what it changes keeps the shape of
      every value on the way to it. */
  lemma {:induction false} UpdateAtAncestorShape(j: Json, p: Path, f: Json -> Json, q: Path)
    requires Prefix(q, p)
    requires GetAt(j, p).Some? ==> SameShape(Some(f(GetAt(j, p).value)), GetAt(j, p))
    ensures SameShape(GetAt(UpdateAt(j, p, f), q), GetAt(j, q))
    decreases |q|
  {
    if q == [] {
      if p != [] {
        UpdateAtKeepsTop(j, p, f);
      }
    } else {
      assert q[0] == p[0];
      match Child(j, p[0])
      case None =>
      case Some(c) =>
        ChildOfWithChild(j, p[0], UpdateAt(c, p[1..], f));
        assert p == [p[0]] + p[1..] && q == [q[0]] + q[1..];
        PrefixCons(p[0], q[1..], p[1..]);
        UpdateAtAncestorShape(c, p[1..], f, q[1..]);
    }
  }

  /** A change one step down replaces that child. */
  lemma UpdateAtOne(j: Json, s: Step, f: Json -> Json)
    requires Child(j, s).Some?
    ensures UpdateAt(j, [s], f) == WithChild(j, s, f(Child(j, s).value))
  {
    assert [s][1..] == [];
  }
}
