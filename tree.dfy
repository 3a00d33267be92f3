/** The adapter's hooks as they run: they change the request (or imp) object
    in place, one property at a time. A `JsonTree` holds that object; each
    method is proved to leave it as the corresponding function of the old
    value describes. */
module RequestTree {
  import opened JsonValues
  import opened Paths
  import opened FlagCoercion
  import opened ExtensionRelocation
  import opened RelocationSteps
  import opened RelocationProperties
  import opened AllegroAdapter

  /** How a hook call ends: normally, or by a TypeError it does not catch. */
  datatype Outcome = Returned | ThrewTypeError

  /** `obj[key] = v` on an object. */
  function SetFn(key: string, v: Json): Json -> Json {
    (obj: Json) => if obj.JObj? then JObj(obj.fields[key := v]) else obj
  }

  /** `delete obj[key]` on an object. */
  function DeleteFn(key: string): Json -> Json {
    (obj: Json) => if obj.JObj? then JObj(obj.fields - {key}) else obj
  }

  class JsonTree {
    var root: Json

    constructor (j: Json)
      ensures root == j
    {
      root := j;
    }

    /** `obj[key] = v`, where `obj` is the object at `at`. */
    method Assign(at: Path, key: string, v: Json)
      requires GetAt(root, at).Some? && GetAt(root, at).value.JObj?
      modifies this
      ensures root == UpdateAt(old(root), at, SetFn(key, v))
      ensures GetAt(root, at) == Some(JObj(GetAt(old(root), at).value.fields[key := v]))
    {
      UpdateAtHit(root, at, SetFn(key, v));
      root := UpdateAt(root, at, SetFn(key, v));
    }

    /** `delete obj[key]`, where `obj` is the object at `at`. */
    method Delete(at: Path, key: string)
      requires GetAt(root, at).Some? && GetAt(root, at).value.JObj?
      modifies this
      ensures root == UpdateAt(old(root), at, DeleteFn(key))
      ensures GetAt(root, at) == Some(JObj(GetAt(old(root), at).value.fields - {key}))
    {
      UpdateAtHit(root, at, DeleteFn(key));
      root := UpdateAt(root, at, DeleteFn(key));
    }

    /** `moveExt(obj, newKey)` for the object at `at`: return unless `obj`
        and `obj.ext` are truthy; copy `ext`, delete it, store the copy. */
    method MoveExt(at: Path, newKey: string)
      modifies this
      ensures root == UpdateAt(old(root), at, MoveExtFn(newKey))
    {
      var obj := GetAt(root, at);
      if obj.None? {
        UpdateAtMissing(root, at, MoveExtFn(newKey));
        return;
      }
      if !Truthy(Field(obj.value, ExtKey)) {
        UpdateAtUnchanged(root, at, MoveExtFn(newKey));
        return;
      }
      var extCopy := JObj(Spread(obj.value.fields[ExtKey]));
      ghost var before := root;
      Delete(at, ExtKey);
      Assign(at, newKey, extCopy);
      UpdateAtCompose(before, at, DeleteFn(ExtKey), SetFn(newKey, extCopy), MoveExtFn(newKey));
    }

    /** `if (x?.key !== undefined) x.key = x.key === 1`, for the object `x`
        at `parent`. */
    method CoerceFlag(parent: Path, key: string)
      modifies this
      ensures root == CoercedAt(old(root), parent + [Key(key)])
    {
      var p := parent + [Key(key)];
      var v := GetAt(root, p);
      GetAtConcat(root, parent, [Key(key)]);
      if v.Some? {
        var obj := GetAt(root, parent).value;
        GetAtOne(obj, Key(key));
        ghost var before := root;
        Assign(parent, key, Flag(v.value));
        UpdateAtSplit(before, parent, [Key(key)], FlagFn());
        UpdateAtOne(obj, Key(key), FlagFn());
        UpdateAtAgree(before, parent, SetFn(key, Flag(v.value)), AtFn([Key(key)], FlagFn()));
      } else {
        UpdateAtMissing(root, p, FlagFn());
      }
    }

    /** The `imp` hook on the imp `buildImp` returned. */
    method CoerceImpFlags()
      modifies this
      ensures root == ImpFlagsCoerced(old(root))
    {
      assert [Key("banner")] + [Key("topframe")] == TopframePath;
      assert [] + [Key("secure")] == SecurePath;
      CoerceFlag([Key("banner")], "topframe");
      CoerceFlag([], "secure");
    }

    /** The coercions of the `request` hook. */
    method CoerceRequestFlags()
      modifies this
      ensures root == RequestFlagsCoerced(old(root))
    {
      assert [Key("device")] + [Key("dnt")] == DntPath;
      assert [Key("device"), Key("sua")] + [Key("mobile")] == MobilePath;
      assert [] + [Key("test")] == TestPath;
      CoerceFlag([Key("device")], "dnt");
      CoerceFlag([Key("device"), Key("sua")], "mobile");
      CoerceFlag([], "test");
    }

    /** `if (x?.ext) moveExt(x, key)` for the object `x` at a location. */
    method Visit(l: Location)
      requires !l.Regs?
      modifies this
      ensures root == Apply(old(root), l)
    {
      if Truthy(GetAt(root, ExtSlot(l))) {
        ghost var before := root;
        GetAtConcat(root, At(l), [Key(ExtKey)]);
        GetAtOne(GetAt(root, At(l)).value, Key(ExtKey));
        MoveExt(At(l), VendorKey(l));
        BlockIsMoveExt(GetAt(before, At(l)).value, l);
        UpdateAtAgree(before, At(l), MoveExtFn(VendorKey(l)), Relocate(l));
      } else {
        ApplyNoOp(root, l);
      }
    }

    /** The `regs` block: coerce `regs.ext.gdpr`, then move `regs.ext`. */
    method VisitRegs()
      modifies this
      ensures root == Apply(old(root), Regs)
    {
      if Truthy(GetAt(root, ExtSlot(Regs))) {
        ghost var before := root;
        GetAtConcat(root, At(Regs), [Key(ExtKey)]);
        GetAtOne(GetAt(root, At(Regs)).value, Key(ExtKey));
        CoerceFlag(ExtSlot(Regs), "gdpr");
        MoveExt(At(Regs), VendorKey(Regs));
        assert ExtSlot(Regs) + [Key("gdpr")] == At(Regs) + GdprPath;
        UpdateAtSplit(before, At(Regs), GdprPath, FlagFn());
        RegsBlockInSteps(GetAt(before, At(Regs)).value);
        UpdateAtCompose(before, At(Regs), AtFn(GdprPath, FlagFn()), MoveExtFn(VendorKey(Regs)), Relocate(Regs));
      } else {
        ApplyNoOp(root, Regs);
      }
    }

    /** The body of the imp walk for entry `i`: a `null` entry throws;
        otherwise its banner is visited, then the entry. */
    method VisitImpEntry(ghost start: Json, elems: seq<Json>, i: nat) returns (ok: bool)
      requires GetAt(start, ImpPath) == Some(JArr(elems)) && i < |elems|
      requires root == ImpFold(Apply, start, i)
      modifies this
      ensures ok <==> elems[i] != JNull
      ensures ok ==> root == ImpFold(Apply, start, i + 1)
    {
      ImpFoldInOrder(Apply, start, i);
      ImpEntryBeforeStep(start, i);
      if GetAt(root, At(Imp(i))) == Some(JNull) {
        return false;
      }
      Visit(Banner(i));
      Visit(Imp(i));
      return true;
    }

    /** The body of the user data walk for entry `i`. */
    method VisitDataEntry(ghost start: Json, elems: seq<Json>, i: nat) returns (ok: bool)
      requires GetAt(start, DataPath) == Some(JArr(elems)) && i < |elems|
      requires root == DataFold(Apply, start, i)
      modifies this
      ensures ok <==> elems[i] != JNull
      ensures ok ==> root == DataFold(Apply, start, i + 1)
    {
      DataFoldInOrder(Apply, start, i);
      DataEntryBeforeStep(start, i);
      if GetAt(root, At(Data(i))) == Some(JNull) {
        return false;
      }
      Visit(Data(i));
      return true;
    }

    /** `request.imp.forEach(…)` over the array `elems` at `imp`: the banner,
        then the entry, of each entry in turn, until a `null` entry throws. */
    method WalkImps(elems: seq<Json>) returns (ok: bool)
      requires GetAt(root, ImpPath) == Some(JArr(elems))
      modifies this
      ensures ok <==> JNull !in elems
      ensures ok ==> root == ImpFold(Apply, old(root), |elems|)
    {
      ghost var start := root;
      var i := 0;
      while i < |elems|
        invariant 0 <= i <= |elems|
        invariant root == ImpFold(Apply, start, i)
        invariant JNull !in elems[..i]
      {
        ok := VisitImpEntry(start, elems, i);
        if !ok {
          return;
        }
        assert elems[..i + 1] == elems[..i] + [elems[i]];
        i := i + 1;
      }
      assert elems[..i] == elems;
      return true;
    }

    /** `if (request.imp) request.imp.forEach(…)`. */
    method RelocateImps() returns (ok: bool)
      modifies this
      ensures ok <==> Iterable(GetAt(old(root), ImpPath))
      ensures ok ==> root == ApplyAll(old(root), ImpLocations(ArrayLength(GetAt(old(root), ImpPath))))
    {
      var imps := GetAt(root, ImpPath);
      if !Truthy(imps) {
        return true;
      }
      if !imps.value.JArr? {
        return false;
      }
      ok := WalkImps(imps.value.elems);
      ImpFoldInOrder(Apply, old(root), ArrayLength(GetAt(old(root), ImpPath)));
    }

    /** `request.user.data.forEach(…)` over the array `elems` at `user.data`. */
    method WalkUserData(elems: seq<Json>) returns (ok: bool)
      requires GetAt(root, DataPath) == Some(JArr(elems))
      modifies this
      ensures ok <==> JNull !in elems
      ensures ok ==> root == DataFold(Apply, old(root), |elems|)
    {
      ghost var start := root;
      var i := 0;
      while i < |elems|
        invariant 0 <= i <= |elems|
        invariant root == DataFold(Apply, start, i)
        invariant JNull !in elems[..i]
      {
        ok := VisitDataEntry(start, elems, i);
        if !ok {
          return;
        }
        assert elems[..i + 1] == elems[..i] + [elems[i]];
        i := i + 1;
      }
      assert elems[..i] == elems;
      return true;
    }

    /** `if (request.user?.data) request.user.data.forEach(…)`. */
    method RelocateUserData() returns (ok: bool)
      modifies this
      ensures ok <==> Iterable(GetAt(old(root), DataPath))
      ensures ok ==> root == ApplyAll(old(root), DataLocations(ArrayLength(GetAt(old(root), DataPath))))
    {
      var data := GetAt(root, DataPath);
      if !Truthy(data) {
        return true;
      }
      if !data.value.JArr? {
        return false;
      }
      ok := WalkUserData(data.value.elems);
      DataFoldInOrder(Apply, old(root), ArrayLength(GetAt(old(root), DataPath)));
    }

    /** The blocks for app, site, publisher and user, in that order. */
    method VisitBeforeData()
      modifies this
      ensures root == ApplyAll(old(root), [App, Site, Publisher, User])
    {
      ghost var start := root;
      Visit(App);
      ApplyAllSnoc(start, [], App);
      assert [] + [App] == [App];
      Visit(Site);
      ApplyAllSnoc(start, [App], Site);
      assert [App] + [Site] == [App, Site];
      Visit(Publisher);
      ApplyAllSnoc(start, [App, Site], Publisher);
      assert [App, Site] + [Publisher] == [App, Site, Publisher];
      Visit(User);
      ApplyAllSnoc(start, [App, Site, Publisher], User);
      assert [App, Site, Publisher] + [User] == [App, Site, Publisher, User];
    }

    /** The blocks for device and geo. */
    method VisitDeviceGeo()
      modifies this
      ensures root == ApplyAll(old(root), [Device, Geo])
    {
      ghost var start := root;
      Visit(Device);
      ApplyAllSnoc(start, [], Device);
      assert [] + [Device] == [Device];
      Visit(Geo);
      ApplyAllSnoc(start, [Device], Geo);
      assert [Device] + [Geo] == [Device, Geo];
    }

    /** The `regs` block, as a one-step walk. */
    method VisitRegsBlock()
      modifies this
      ensures root == ApplyAll(old(root), [Regs])
    {
      ghost var start := root;
      VisitRegs();
      ApplyAllSnoc(start, [], Regs);
      assert [] + [Regs] == [Regs];
    }

    /** The blocks for source and the request itself. */
    method VisitSourceRequest()
      modifies this
      ensures root == ApplyAll(old(root), [Source, BidRequest])
    {
      ghost var start := root;
      Visit(Source);
      ApplyAllSnoc(start, [], Source);
      assert [] + [Source] == [Source];
      Visit(BidRequest);
      ApplyAllSnoc(start, [Source], BidRequest);
      assert [Source] + [BidRequest] == [Source, BidRequest];
    }

    /** The blocks for device, geo, regs, source and the request itself. */
    method VisitAfterData()
      modifies this
      ensures root == ApplyAll(old(root), [Device, Geo, Regs, Source, BidRequest])
    {
      ghost var start := root;
      VisitDeviceGeo();
      VisitRegsBlock();
      ApplyAllConcat(start, [Device, Geo], [Regs]);
      VisitSourceRequest();
      ApplyAllConcat(start, [Device, Geo] + [Regs], [Source, BidRequest]);
      assert [Device, Geo] + [Regs] + [Source, BidRequest] == [Device, Geo, Regs, Source, BidRequest];
    }

    /** `convertExtensionFields(request)`. */
    method ConvertExtensionFields() returns (outcome: Outcome)
      modifies this
      ensures outcome == Returned <==> Relocatable(old(root))
      ensures outcome == Returned ==> root == Relocated(old(root))
    {
      ghost var start := root;
      if root == JNull {
        return ThrewTypeError;
      }
      var ok := RelocateImps();
      if !ok {
        return ThrewTypeError;
      }
      ghost var imps := ImpLocations(ArrayLength(GetAt(start, ImpPath)));
      VisitBeforeData();
      ApplyAllConcat(start, imps, [App, Site, Publisher, User]);
      ghost var done := imps + [App, Site, Publisher, User];
      DataPathBeforeWalk(start, ArrayLength(GetAt(start, ImpPath)));
      ok := RelocateUserData();
      if !ok {
        return ThrewTypeError;
      }
      ghost var data := DataLocations(ArrayLength(GetAt(start, DataPath)));
      ApplyAllConcat(start, done, data);
      VisitAfterData();
      ApplyAllConcat(start, done + data, [Device, Geo, Regs, Source, BidRequest]);
      return Returned;
    }

    /** The `request` hook on the request `buildRequest` returned, with the
        `allegro.convertExtensionFields` setting. */
    method PostProcessRequest(setting: Option<Json>) returns (outcome: Outcome)
      modifies this
      ensures outcome == Returned <==> PostProcessedRequest(old(root), setting).Ok?
      ensures outcome == Returned ==> root == PostProcessedRequest(old(root), setting).value
    {
      CoerceRequestFlags();
      if ConvertExtensionsEnabled(setting) {
        outcome := ConvertExtensionFields();
      } else {
        outcome := Returned;
      }
    }
  }
}
