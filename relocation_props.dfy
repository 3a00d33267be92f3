/** What `convertExtensionFields` does to a whole request: at every location
    it visits, a truthy `ext` is gone and its copy sits under the vendor key;
    nothing else in the request changes; arrays keep their length and order;
    the conversion is idempotent; and it fails exactly as the adapter does. */
module RelocationProperties {
  import opened JsonValues
  import opened Paths
  import opened FlagCoercion
  import opened ExtensionRelocation
  import opened RelocationSteps
  import opened Walks

  lemma ApplyAllSnoc(j: Json, t: seq<Location>, l: Location)
    ensures ApplyAll(j, t + [l]) == Apply(ApplyAll(j, t), l)
  {
    FoldSnoc(Apply, j, t, l);
  }

  lemma ApplyAllConcat(j: Json, a: seq<Location>, b: seq<Location>)
    ensures ApplyAll(j, a + b) == ApplyAll(ApplyAll(j, a), b)
  {
    FoldConcat(Apply, j, a, b);
  }

  /** The last step of a non-empty walk. */
  lemma ApplyAllLast(j: Json, t: seq<Location>)
    requires t != []
    ensures ApplyAll(j, t) == Apply(ApplyAll(j, t[..|t| - 1]), t[|t| - 1])
  {
  }

  /** After the steps of `t`, the slots of a location in `t` hold what its own
      step put there, and the slots of any other location are as they were. */
  lemma {:induction false} ApplyAllSlots(j: Json, t: seq<Location>, l: Location)
    ensures GetAt(ApplyAll(j, t), ExtSlot(l)) ==
      if l in t && Truthy(GetAt(j, ExtSlot(l))) then None else GetAt(j, ExtSlot(l))
    ensures GetAt(ApplyAll(j, t), VendorSlot(l)) ==
      if l in t && Truthy(GetAt(j, ExtSlot(l))) then Some(MovedCopy(l, GetAt(j, ExtSlot(l)).value))
      else GetAt(j, VendorSlot(l))
    decreases |t|
  {
    if t != [] {
      var t' := t[..|t| - 1];
      var e := t[|t| - 1];
      assert t == t' + [e];
      ApplyAllLast(j, t);
      ApplyAllSlots(j, t', l);
      StepSlots(j, ApplyAll(j, t'), l in t', e, l);
    }
  }

  /** One more step keeps the slots of `l` as `ApplyAllSlots` describes them. */
  lemma StepSlots(j: Json, j': Json, before: bool, e: Location, l: Location)
    requires GetAt(j', ExtSlot(l)) ==
      if before && Truthy(GetAt(j, ExtSlot(l))) then None else GetAt(j, ExtSlot(l))
    requires GetAt(j', VendorSlot(l)) ==
      if before && Truthy(GetAt(j, ExtSlot(l))) then Some(MovedCopy(l, GetAt(j, ExtSlot(l)).value))
      else GetAt(j, VendorSlot(l))
    ensures GetAt(Apply(j', e), ExtSlot(l)) ==
      if (before || e == l) && Truthy(GetAt(j, ExtSlot(l))) then None else GetAt(j, ExtSlot(l))
    ensures GetAt(Apply(j', e), VendorSlot(l)) ==
      if (before || e == l) && Truthy(GetAt(j, ExtSlot(l))) then Some(MovedCopy(l, GetAt(j, ExtSlot(l)).value))
      else GetAt(j, VendorSlot(l))
  {
    if e == l {
      if before && Truthy(GetAt(j, ExtSlot(l))) {
        ApplyNoOp(j', l);
      } else {
        ApplySlots(j', l);
      }
    } else {
      DistinctLocationsApart(e, l);
      ApplyFrame(j', e, ExtSlot(l));
      ApplyFrame(j', e, VendorSlot(l));
    }
  }

  /** No slot of a location of `t` with something to move leads through, or to, `q`. */
  predicate Clear(j: Json, t: seq<Location>, q: Path) {
    forall l :: l in t && Truthy(GetAt(j, ExtSlot(l))) ==>
      !Comparable(q, ExtSlot(l)) && !Comparable(q, VendorSlot(l))
  }

  /** The steps of `t` change nothing at a path clear of the slots where
      something is moved. */
  lemma {:induction false} ApplyAllFrame(j: Json, t: seq<Location>, q: Path)
    requires Clear(j, t, q)
    ensures GetAt(ApplyAll(j, t), q) == GetAt(j, q)
    decreases |t|
  {
    if t != [] {
      var t' := t[..|t| - 1];
      var e := t[|t| - 1];
      assert t == t' + [e];
      ApplyAllLast(j, t);
      var j' := ApplyAll(j, t');
      ApplyAllFrame(j, t', q);
      if Truthy(GetAt(j, ExtSlot(e))) {
        ApplyFrame(j', e, q);
      } else {
        ApplyAllSlots(j, t', e);
        ApplyNoOp(j', e);
      }
    }
  }

  /** The steps of `t` keep the shape of every value not at or below a slot. */
  lemma {:induction false} ApplyAllShape(j: Json, t: seq<Location>, q: Path)
    requires forall l :: l in t ==> !Prefix(ExtSlot(l), q) && !Prefix(VendorSlot(l), q)
    ensures SameShape(GetAt(ApplyAll(j, t), q), GetAt(j, q))
    decreases |t|
  {
    if t != [] {
      var t' := t[..|t| - 1];
      var e := t[|t| - 1];
      assert t == t' + [e];
      ApplyAllLast(j, t);
      ApplyAllShape(j, t', q);
      ApplyShape(ApplyAll(j, t'), e, q);
    }
  }

  lemma {:induction false} ImpLocationsMembers(n: nat, l: Location)
    ensures l in ImpLocations(n) <==> (l.Banner? || l.Imp?) && l.i < n
  {
    if n > 0 {
      ImpLocationsMembers(n - 1, l);
    }
  }

  lemma {:induction false} DataLocationsMembers(n: nat, l: Location)
    ensures l in DataLocations(n) <==> l.Data? && l.i < n
  {
    if n > 0 {
      DataLocationsMembers(n - 1, l);
    }
  }

  /** The table visits exactly the listed locations. */
  lemma ListedInTable(req: Json, l: Location)
    ensures l in ExtLocations(req) <==> Listed(req, l)
  {
    ImpLocationsMembers(ArrayLength(GetAt(req, ImpPath)), l);
    DataLocationsMembers(ArrayLength(GetAt(req, DataPath)), l);
  }

  /** At every location the adapter visits, a truthy `ext` is removed and a
      shallow copy of it (of the `gdpr`-coerced one for `regs`) is stored
      under the location's vendor key; an object `ext` is copied key for key.
      A falsy `ext` and the vendor key are then left as they were. */
  lemma RelocationMoves(req: Json, l: Location)
    requires Listed(req, l)
    ensures GetAt(Relocated(req), ExtSlot(l)) ==
      if Truthy(GetAt(req, ExtSlot(l))) then None else GetAt(req, ExtSlot(l))
    ensures GetAt(Relocated(req), VendorSlot(l)) ==
      if Truthy(GetAt(req, ExtSlot(l))) then Some(MovedCopy(l, GetAt(req, ExtSlot(l)).value))
      else GetAt(req, VendorSlot(l))
    ensures !l.Regs? && GetAt(req, ExtSlot(l)).Some? && GetAt(req, ExtSlot(l)).value.JObj? ==>
      GetAt(Relocated(req), VendorSlot(l)) == GetAt(req, ExtSlot(l))
  {
    ListedInTable(req, l);
    ApplyAllSlots(req, ExtLocations(req), l);
  }

  /** Nothing changes at a path that leads neither through nor to a slot of
      a location with something to move: other fields of the relocated
      objects, `ext` fields anywhere else, and everything outside. */
  lemma RelocationFrame(req: Json, q: Path)
    requires forall l :: Listed(req, l) && Truthy(GetAt(req, ExtSlot(l))) ==>
      !Comparable(q, ExtSlot(l)) && !Comparable(q, VendorSlot(l))
    ensures GetAt(Relocated(req), q) == GetAt(req, q)
  {
    forall l | l in ExtLocations(req) && Truthy(GetAt(req, ExtSlot(l)))
      ensures !Comparable(q, ExtSlot(l)) && !Comparable(q, VendorSlot(l))
    {
      ListedInTable(req, l);
    }
    ApplyAllFrame(req, ExtLocations(req), q);
  }

  /** With no truthy `ext` at any visited location the request is unchanged. */
  lemma RelocationNoOp(req: Json)
    requires forall l :: Listed(req, l) ==> !Truthy(GetAt(req, ExtSlot(l)))
    ensures Relocated(req) == req
  {
    RelocationFrame(req, []);
  }

  /** No slot lies above the root, the two arrays walked, or their entries. */
  lemma NoSlotAbove(l: Location, q: Path)
    requires q == [] || q == ImpPath || q == DataPath || (|q| == |ImpPath| + 1 && q[..1] == ImpPath && q[1].Index?) ||
      (|q| == |DataPath| + 1 && q[..2] == DataPath && q[2].Index?)
    ensures !Prefix(ExtSlot(l), q) && !Prefix(VendorSlot(l), q)
  {
    NoSlotPrefix(l, ExtKey, q);
    NoSlotPrefix(l, VendorKey(l), q);
  }

  lemma NoSlotPrefix(l: Location, k: string, q: Path)
    requires k == ExtKey || k == VendorKey(l)
    requires q == [] || q == ImpPath || q == DataPath || (|q| == |ImpPath| + 1 && q[..1] == ImpPath && q[1].Index?) ||
      (|q| == |DataPath| + 1 && q[..2] == DataPath && q[2].Index?)
    ensures !Prefix(At(l) + [Key(k)], q)
  {
    var s := At(l) + [Key(k)];
    if |s| <= |q| {
      if s[0] != q[0] {
        StepsDiffer(s, q, 0);
      } else {
        StepsDiffer(s, q, 1);
      }
    }
  }

  /** What `Iterable` and the table read of a request is kept by relocation. */
  lemma IterableKept(req: Json, r: Json, p: Path)
    requires SameShape(GetAt(r, p), GetAt(req, p))
    requires forall i :: 0 <= i < ArrayLength(GetAt(req, p)) ==>
      SameShape(GetAt(r, p + [Index(i)]), GetAt(req, p + [Index(i)]))
    ensures ArrayLength(GetAt(r, p)) == ArrayLength(GetAt(req, p))
    ensures Iterable(GetAt(r, p)) <==> Iterable(GetAt(req, p))
  {
    if GetAt(req, p).Some? && GetAt(req, p).value.JArr? {
      var n := ArrayLength(GetAt(req, p));
      forall i | 0 <= i < n
        ensures GetAt(r, p).value.elems[i] == JNull <==> GetAt(req, p).value.elems[i] == JNull
      {
        GetAtConcat(r, p, [Index(i)]);
        GetAtConcat(req, p, [Index(i)]);
        GetAtOne(GetAt(r, p).value, Index(i));
        GetAtOne(GetAt(req, p).value, Index(i));
      }
    }
  }

  lemma WalkedArrayKept(req: Json, p: Path)
    requires p == ImpPath || p == DataPath
    ensures ArrayLength(GetAt(Relocated(req), p)) == ArrayLength(GetAt(req, p))
    ensures Iterable(GetAt(Relocated(req), p)) <==> Iterable(GetAt(req, p))
  {
    var t := ExtLocations(req);
    forall l | l in t
      ensures !Prefix(ExtSlot(l), p) && !Prefix(VendorSlot(l), p)
    {
      NoSlotAbove(l, p);
    }
    ApplyAllShape(req, t, p);
    forall i | 0 <= i < ArrayLength(GetAt(req, p))
      ensures SameShape(GetAt(Relocated(req), p + [Index(i)]), GetAt(req, p + [Index(i)]))
    {
      var q := p + [Index(i)];
      assert q[..|p|] == p;
      forall l | l in t
        ensures !Prefix(ExtSlot(l), q) && !Prefix(VendorSlot(l), q)
      {
        NoSlotAbove(l, q);
      }
      ApplyAllShape(req, t, q);
    }
    IterableKept(req, Relocated(req), p);
  }

  /** Relocation visits the same locations of its result, and fails on its
      result exactly when it fails on the request. */
  lemma RelocationKeepsShape(req: Json)
    ensures ExtLocations(Relocated(req)) == ExtLocations(req)
    ensures Relocatable(Relocated(req)) <==> Relocatable(req)
  {
    WalkedArrayKept(req, ImpPath);
    WalkedArrayKept(req, DataPath);
    forall l | l in ExtLocations(req)
      ensures !Prefix(ExtSlot(l), []) && !Prefix(VendorSlot(l), [])
    {
      NoSlotAbove(l, []);
    }
    ApplyAllShape(req, ExtLocations(req), []);
  }

  /** Relocating twice is relocating once: no visited location keeps a truthy `ext`. */
  lemma RelocationIdempotent(req: Json)
    ensures forall l :: Listed(Relocated(req), l) ==> !Truthy(GetAt(Relocated(req), ExtSlot(l)))
    ensures Relocated(Relocated(req)) == Relocated(req)
  {
    var r := Relocated(req);
    RelocationKeepsShape(req);
    forall l | Listed(r, l)
      ensures !Truthy(GetAt(r, ExtSlot(l)))
    {
      ListedInTable(req, l);
      ListedInTable(r, l);
      RelocationMoves(req, l);
    }
    RelocationNoOp(r);
  }

  /** The conversion, with its failure, is idempotent. */
  lemma ConversionIdempotent(req: Json)
    requires ExtensionFieldsConverted(req).Ok?
    ensures ExtensionFieldsConverted(ExtensionFieldsConverted(req).value) == ExtensionFieldsConverted(req)
  {
    RelocationKeepsShape(req);
    RelocationIdempotent(req);
  }

  /** Per imp entry: the entry and its banner are relocated in place, and an
      entry with nothing to move is left exactly as it was; the array keeps
      its length, so entry `i` of the result is entry `i` of the request. */
  lemma ImpEntryRelocation(req: Json, i: nat)
    requires i < ArrayLength(GetAt(req, ImpPath))
    ensures ArrayLength(GetAt(Relocated(req), ImpPath)) == ArrayLength(GetAt(req, ImpPath))
    ensures Truthy(GetAt(req, ExtSlot(Imp(i)))) ==>
      GetAt(Relocated(req), ExtSlot(Imp(i))) == None &&
      GetAt(Relocated(req), VendorSlot(Imp(i))) == Some(JObj(Spread(GetAt(req, ExtSlot(Imp(i))).value)))
    ensures Truthy(GetAt(req, ExtSlot(Banner(i)))) ==>
      GetAt(Relocated(req), ExtSlot(Banner(i))) == None &&
      GetAt(Relocated(req), VendorSlot(Banner(i))) == Some(JObj(Spread(GetAt(req, ExtSlot(Banner(i))).value)))
    ensures !Truthy(GetAt(req, ExtSlot(Imp(i)))) && !Truthy(GetAt(req, ExtSlot(Banner(i)))) ==>
      GetAt(Relocated(req), At(Imp(i))) == GetAt(req, At(Imp(i)))
  {
    WalkedArrayKept(req, ImpPath);
    RelocationMoves(req, Imp(i));
    RelocationMoves(req, Banner(i));
    if !Truthy(GetAt(req, ExtSlot(Imp(i)))) && !Truthy(GetAt(req, ExtSlot(Banner(i)))) {
      forall l | Listed(req, l) && Truthy(GetAt(req, ExtSlot(l)))
        ensures !Comparable(At(Imp(i)), ExtSlot(l)) && !Comparable(At(Imp(i)), VendorSlot(l))
      {
        EntryApart(Imp(i), l, ExtKey);
        EntryApart(Imp(i), l, VendorKey(l));
      }
      RelocationFrame(req, At(Imp(i)));
    }
  }

  /** Per user data entry, as for imp entries. */
  lemma DataEntryRelocation(req: Json, i: nat)
    requires i < ArrayLength(GetAt(req, DataPath))
    ensures ArrayLength(GetAt(Relocated(req), DataPath)) == ArrayLength(GetAt(req, DataPath))
    ensures Truthy(GetAt(req, ExtSlot(Data(i)))) ==>
      GetAt(Relocated(req), ExtSlot(Data(i))) == None &&
      GetAt(Relocated(req), VendorSlot(Data(i))) == Some(JObj(Spread(GetAt(req, ExtSlot(Data(i))).value)))
    ensures !Truthy(GetAt(req, ExtSlot(Data(i)))) ==>
      GetAt(Relocated(req), At(Data(i))) == GetAt(req, At(Data(i)))
  {
    WalkedArrayKept(req, DataPath);
    RelocationMoves(req, Data(i));
    if !Truthy(GetAt(req, ExtSlot(Data(i)))) {
      forall l | Listed(req, l) && Truthy(GetAt(req, ExtSlot(l)))
        ensures !Comparable(At(Data(i)), ExtSlot(l)) && !Comparable(At(Data(i)), VendorSlot(l))
      {
        EntryApart(Data(i), l, ExtKey);
        EntryApart(Data(i), l, VendorKey(l));
      }
      RelocationFrame(req, At(Data(i)));
    }
  }

  /** An array entry lies on no slot but its own (and, for an imp entry, its banner's). */
  lemma EntryApart(e: Location, l: Location, k: string)
    requires e.Imp? || e.Data?
    requires l != e && (e.Imp? ==> l != Banner(e.i))
    requires k == ExtKey || k == VendorKey(l)
    ensures !Comparable(At(e), At(l) + [Key(k)])
  {
    var s := At(l) + [Key(k)];
    var p := At(e);
    if p[0] != s[0] {
      StepsDiffer(p, s, 0);
    } else if p[1] != s[1] {
      StepsDiffer(p, s, 1);
    } else {
      StepsDiffer(p, s, 2);
    }
  }

  /** `regs.ext.gdpr` reaches the vendor key as `gdpr === 1`, beside the other
      fields of an object `regs.ext`, which are copied as they were. */
  lemma GdprCoercedOnMove(req: Json)
    requires GetAt(req, ExtSlot(Regs)).Some? && GetAt(req, ExtSlot(Regs)).value.JObj?
    ensures GetAt(Relocated(req), ExtSlot(Regs)) == None
    ensures GetAt(Relocated(req), VendorSlot(Regs)).Some?
    ensures GetAt(Relocated(req), VendorSlot(Regs) + [Key("gdpr")]) ==
      FlagOf(GetAt(req, ExtSlot(Regs) + [Key("gdpr")]))
    ensures forall k :: k != "gdpr" ==>
      GetAt(Relocated(req), VendorSlot(Regs) + [Key(k)]) == GetAt(req, ExtSlot(Regs) + [Key(k)])
  {
    var ext := GetAt(req, ExtSlot(Regs)).value;
    var r := Relocated(req);
    RelocationMoves(req, Regs);
    var copy := UpdateAt(ext, [Key("gdpr")], FlagFn());
    assert GetAt(r, VendorSlot(Regs)) == Some(JObj(copy.fields));
    GetAtConcat(req, ExtSlot(Regs), [Key("gdpr")]);
    GetAtConcat(r, VendorSlot(Regs), [Key("gdpr")]);
    GetAtOne(ext, Key("gdpr"));
    GetAtOne(copy, Key("gdpr"));
    UpdateAtHit(ext, [Key("gdpr")], FlagFn());
    forall k | k != "gdpr"
      ensures GetAt(r, VendorSlot(Regs) + [Key(k)]) == GetAt(req, ExtSlot(Regs) + [Key(k)])
    {
      GetAtConcat(req, ExtSlot(Regs), [Key(k)]);
      GetAtConcat(r, VendorSlot(Regs), [Key(k)]);
      GetAtOne(ext, Key(k));
      GetAtOne(copy, Key(k));
      StepsDiffer([Key("gdpr")], [Key(k)], 0);
      UpdateAtFrame(ext, [Key("gdpr")], FlagFn(), [Key(k)]);
    }
  }

  /** Entry `i` of an array at `p`, read through a path. */
  lemma EntryAt(j: Json, p: Path, i: nat)
    requires GetAt(j, p).Some? && GetAt(j, p).value.JArr? && i < |GetAt(j, p).value.elems|
    ensures GetAt(j, p + [Index(i)]) == Some(GetAt(j, p).value.elems[i])
  {
    GetAtConcat(j, p, [Index(i)]);
    GetAtOne(GetAt(j, p).value, Index(i));
  }

  /** Walking the first `i` imp entries leaves entry `i` as it was. */
  lemma EarlierImpsKeepEntry(j: Json, i: nat)
    ensures GetAt(ApplyAll(j, ImpLocations(i)), At(Imp(i))) == GetAt(j, At(Imp(i)))
  {
    forall l | l in ImpLocations(i)
      ensures !Comparable(At(Imp(i)), ExtSlot(l)) && !Comparable(At(Imp(i)), VendorSlot(l))
    {
      ImpLocationsMembers(i, l);
      EntryApart(Imp(i), l, ExtKey);
      EntryApart(Imp(i), l, VendorKey(l));
    }
    ApplyAllFrame(j, ImpLocations(i), At(Imp(i)));
  }

  /** Walking the first `i` user data entries leaves entry `i` as it was. */
  lemma EarlierDataKeepEntry(j: Json, i: nat)
    ensures GetAt(ApplyAll(j, DataLocations(i)), At(Data(i))) == GetAt(j, At(Data(i)))
  {
    forall l | l in DataLocations(i)
      ensures !Comparable(At(Data(i)), ExtSlot(l)) && !Comparable(At(Data(i)), VendorSlot(l))
    {
      DataLocationsMembers(i, l);
      EntryApart(Data(i), l, ExtKey);
      EntryApart(Data(i), l, VendorKey(l));
    }
    ApplyAllFrame(j, DataLocations(i), At(Data(i)));
  }

  lemma DataPathApart(l: Location, k: string)
    requires !l.Data?
    requires k == ExtKey || k == VendorKey(l)
    ensures !Comparable(DataPath, At(l) + [Key(k)])
  {
    var s := At(l) + [Key(k)];
    if DataPath[0] != s[0] {
      StepsDiffer(DataPath, s, 0);
    } else {
      StepsDiffer(DataPath, s, 1);
    }
  }

  /** The steps before the user data walk leave `user.data` as it was. */
  lemma DataPathBeforeWalk(j: Json, n: nat)
    ensures GetAt(ApplyAll(j, ImpLocations(n) + [App, Site, Publisher, User]), DataPath) == GetAt(j, DataPath)
  {
    var t := ImpLocations(n) + [App, Site, Publisher, User];
    forall l | l in t
      ensures !Comparable(DataPath, ExtSlot(l)) && !Comparable(DataPath, VendorSlot(l))
    {
      ImpLocationsMembers(n, l);
      DataPathApart(l, ExtKey);
      DataPathApart(l, VendorKey(l));
    }
    ApplyAllFrame(j, t, DataPath);
  }

  /** One more imp entry: its banner's step, then its own. */
  lemma ImpLocationsStep(step: (Json, Location) -> Json, j: Json, i: nat)
    ensures Fold(step, j, ImpLocations(i + 1)) == step(step(Fold(step, j, ImpLocations(i)), Banner(i)), Imp(i))
  {
    FoldSnoc(step, j, ImpLocations(i), Banner(i));
    FoldSnoc(step, j, ImpLocations(i) + [Banner(i)], Imp(i));
    assert ImpLocations(i + 1) == ImpLocations(i) + [Banner(i)] + [Imp(i)];
  }

  lemma DataLocationsStep(step: (Json, Location) -> Json, j: Json, i: nat)
    ensures Fold(step, j, DataLocations(i + 1)) == step(Fold(step, j, DataLocations(i)), Data(i))
  {
    FoldSnoc(step, j, DataLocations(i), Data(i));
  }

  /** Entry `i` of `imp`, as the walk finds it after `i` entries. */
  lemma ImpEntryBeforeStep(j: Json, i: nat)
    requires GetAt(j, ImpPath).Some? && GetAt(j, ImpPath).value.JArr?
    requires i < |GetAt(j, ImpPath).value.elems|
    ensures GetAt(ApplyAll(j, ImpLocations(i)), At(Imp(i))) == Some(GetAt(j, ImpPath).value.elems[i])
  {
    assert At(Imp(i)) == ImpPath + [Index(i)];
    EntryAt(j, ImpPath, i);
    EarlierImpsKeepEntry(j, i);
  }

  /** Entry `i` of `user.data`, as the walk finds it after `i` entries. */
  lemma DataEntryBeforeStep(j: Json, i: nat)
    requires GetAt(j, DataPath).Some? && GetAt(j, DataPath).value.JArr?
    requires i < |GetAt(j, DataPath).value.elems|
    ensures GetAt(ApplyAll(j, DataLocations(i)), At(Data(i))) == Some(GetAt(j, DataPath).value.elems[i])
  {
    assert At(Data(i)) == DataPath + [Index(i)];
    EntryAt(j, DataPath, i);
    EarlierDataKeepEntry(j, i);
  }

  /** The walk over the first `n` imp entries, one entry at a time: its
      banner's step, then its own. */
  function ImpFold(step: (Json, Location) -> Json, j: Json, n: nat): Json {
    if n == 0 then j else step(step(ImpFold(step, j, n - 1), Banner(n - 1)), Imp(n - 1))
  }

  lemma {:induction false} ImpFoldInOrder(step: (Json, Location) -> Json, j: Json, n: nat)
    ensures ImpFold(step, j, n) == Fold(step, j, ImpLocations(n))
  {
    if n > 0 {
      ImpFoldInOrder(step, j, n - 1);
      ImpLocationsStep(step, j, n - 1);
    }
  }

  /** The walk over the first `n` user data entries, one at a time. */
  function DataFold(step: (Json, Location) -> Json, j: Json, n: nat): Json {
    if n == 0 then j else step(DataFold(step, j, n - 1), Data(n - 1))
  }

  lemma {:induction false} DataFoldInOrder(step: (Json, Location) -> Json, j: Json, n: nat)
    ensures DataFold(step, j, n) == Fold(step, j, DataLocations(n))
  {
    if n > 0 {
      DataFoldInOrder(step, j, n - 1);
      DataLocationsStep(step, j, n - 1);
    }
  }
}
