/** What the step for one location does to a request: it changes the two slots
    of that location and nothing else, and it does nothing when there is no
    truthy `ext` to move. */
module RelocationSteps {
  import opened JsonValues
  import opened Paths
  import opened FlagCoercion
  import opened ExtensionRelocation

  /** Locations are told apart by their slots. */
  lemma DistinctLocationsApart(l1: Location, l2: Location)
    requires l1 != l2
    ensures Apart(l1, l2)
  {
    SlotsApart(l1, ExtKey, l2, ExtKey);
    SlotsApart(l1, ExtKey, l2, VendorKey(l2));
    SlotsApart(l1, VendorKey(l1), l2, ExtKey);
    SlotsApart(l1, VendorKey(l1), l2, VendorKey(l2));
  }

  /** Two slots of distinct locations part within their first three steps. */
  lemma SlotsApart(l1: Location, k1: string, l2: Location, k2: string)
    requires l1 != l2
    requires k1 == ExtKey || k1 == VendorKey(l1)
    requires k2 == ExtKey || k2 == VendorKey(l2)
    ensures !Comparable(At(l1) + [Key(k1)], At(l2) + [Key(k2)])
  {
    var s1 := At(l1) + [Key(k1)];
    var s2 := At(l2) + [Key(k2)];
    if s1[0] != s2[0] {
      StepsDiffer(s1, s2, 0);
    } else if s1[1] != s2[1] {
      StepsDiffer(s1, s2, 1);
    } else {
      StepsDiffer(s1, s2, 2);
    }
  }

  /** Only the `ext` and the vendor key of the object are changed. */
  lemma RelocateChild(x: Json, l: Location, s: Step)
    requires s != Key(ExtKey) && s != Key(VendorKey(l))
    ensures Child(Relocate(l)(x), s) == Child(x, s)
  {
  }

  /** The object at a location stays an object, and anything else stays as it is. */
  lemma RelocateShape(x: Json, l: Location)
    ensures x.JObj? ==> Relocate(l)(x).JObj?
    ensures !x.JObj? ==> Relocate(l)(x) == x
  {
  }

  /** Away from `regs`, a block is `moveExt` with the location's vendor key. */
  lemma BlockIsMoveExt(x: Json, l: Location)
    requires !l.Regs?
    ensures Block(x, l) == MovedExt(x, VendorKey(l))
  {
  }

  /** The `regs` block as the adapter writes it: coerce `regs.ext.gdpr`,
      then `moveExt`. */
  lemma RegsBlockInSteps(x: Json)
    requires Truthy(Field(x, ExtKey))
    ensures MovedExt(UpdateAt(x, GdprPath, FlagFn()), VendorKey(Regs)) == Block(x, Regs)
  {
    var ext := x.fields[ExtKey];
    var ext' := UpdateAt(ext, [Key("gdpr")], FlagFn());
    assert GdprPath == [Key(ExtKey)] + [Key("gdpr")];
    UpdateAtSplit(x, [Key(ExtKey)], [Key("gdpr")], FlagFn());
    GetAtOne(x, Key(ExtKey));
    UpdateAtOne(x, Key(ExtKey), AtFn([Key("gdpr")], FlagFn()));
    UpdateAtKeepsTop(ext, [Key("gdpr")], FlagFn());
    var y := UpdateAt(x, GdprPath, FlagFn());
    assert y == JObj(x.fields[ExtKey := ext']);
    assert y.fields - {ExtKey} == x.fields - {ExtKey};
  }

  /** The slots of a location after its step. */
  lemma ApplySlots(j: Json, l: Location)
    ensures GetAt(Apply(j, l), ExtSlot(l)) ==
      if Truthy(GetAt(j, ExtSlot(l))) then None else GetAt(j, ExtSlot(l))
    ensures GetAt(Apply(j, l), VendorSlot(l)) ==
      if Truthy(GetAt(j, ExtSlot(l))) then Some(MovedCopy(l, GetAt(j, ExtSlot(l)).value))
      else GetAt(j, VendorSlot(l))
  {
    var f := Relocate(l);
    GetAtConcat(j, At(l), [Key(ExtKey)]);
    GetAtConcat(j, At(l), [Key(VendorKey(l))]);
    UpdateAtBelow(j, At(l), f, [Key(ExtKey)]);
    UpdateAtBelow(j, At(l), f, [Key(VendorKey(l))]);
    match GetAt(j, At(l))
    case None =>
    case Some(x) =>
      GetAtOne(x, Key(ExtKey));
      GetAtOne(x, Key(VendorKey(l)));
      GetAtOne(f(x), Key(ExtKey));
      GetAtOne(f(x), Key(VendorKey(l)));
  }

  /** Below a location, away from its two slots, nothing changes. */
  lemma ApplyBelow(j: Json, l: Location, q: Path)
    requires Prefix(At(l), q) && |At(l)| < |q|
    requires q[|At(l)|] != Key(ExtKey) && q[|At(l)|] != Key(VendorKey(l))
    ensures GetAt(Apply(j, l), q) == GetAt(j, q)
  {
    var p := At(l);
    var rest := q[|p|..];
    assert q == p + rest;
    UpdateAtBelow(j, p, Relocate(l), rest);
    GetAtConcat(j, p, rest);
    match GetAt(j, p)
    case None =>
    case Some(x) =>
      RelocateChild(x, l, rest[0]);
  }

  /** A step is invisible at every path that does not lead through, or to,
      one of its slots. */
  lemma ApplyFrame(j: Json, l: Location, q: Path)
    requires !Comparable(q, ExtSlot(l)) && !Comparable(q, VendorSlot(l))
    ensures GetAt(Apply(j, l), q) == GetAt(j, q)
  {
    var p := At(l);
    if !Comparable(p, q) {
      UpdateAtFrame(j, p, Relocate(l), q);
    } else {
      if Prefix(q, p) {
        PrefixExtend(q, p, Key(ExtKey));
      }
      assert Prefix(p, q) && q != p;
      PrefixStep(p, q);
      ApplyBelow(j, l, q);
    }
  }

  /** With no truthy `ext` at a location, its step changes nothing. */
  lemma ApplyNoOp(j: Json, l: Location)
    requires !Truthy(GetAt(j, ExtSlot(l)))
    ensures Apply(j, l) == j
  {
    GetAtConcat(j, At(l), [Key(ExtKey)]);
    match GetAt(j, At(l))
    case None =>
      UpdateAtMissing(j, At(l), Relocate(l));
    case Some(x) =>
      GetAtOne(x, Key(ExtKey));
      UpdateAtUnchanged(j, At(l), Relocate(l));
  }

  /** A step keeps the shape of every value not at or below one of its slots. */
  lemma ApplyShape(j: Json, l: Location, q: Path)
    requires !Prefix(ExtSlot(l), q) && !Prefix(VendorSlot(l), q)
    ensures SameShape(GetAt(Apply(j, l), q), GetAt(j, q))
  {
    var p := At(l);
    if !Comparable(p, q) {
      UpdateAtFrame(j, p, Relocate(l), q);
    } else if Prefix(q, p) {
      if GetAt(j, p).Some? {
        RelocateShape(GetAt(j, p).value, l);
      }
      UpdateAtAncestorShape(j, p, Relocate(l), q);
    } else {
      PrefixStep(p, q);
      ApplyBelow(j, l, q);
    }
  }
}
