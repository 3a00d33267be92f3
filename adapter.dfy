/** The adapter's decisions that depend on configuration: whether the
    `request` hook converts extension fields, which endpoint the bid request
    is posted to, and whether a won bid fires its billing pixel. A
    configuration value is passed in as the result of the property read
    (`None` when the setting is not configured). */
module AllegroAdapter {
  import opened JsonValues
  import opened Paths
  import opened FlagCoercion
  import opened ExtensionRelocation
  import opened RelocationProperties

  const BidderUrl: string := "https://dsp.allegro.com/bid"

  /** Conversion runs unless the setting says otherwise, and only the literal
      `true` keeps it on once the setting is present: `1`, `"true"` or any
      other truthy value turns it off, as does every falsy value. */
  function ConvertExtensionsEnabled(setting: Option<Json>): (on: bool)
    ensures setting.None? ==> on
    ensures setting.Some? ==> (on <==> setting.value == JBool(true))
    ensures on ==> setting.None? || Truthy(setting)
  {
    setting == None || setting == Some(JBool(true))
  }

  /** The `request` hook after `buildRequest`: flag coercion, then, when
      enabled, extension relocation, which may throw. */
  function PostProcessedRequest(built: Json, setting: Option<Json>): (r: Result<Json>)
    ensures r.TypeError? <==> ConvertExtensionsEnabled(setting) && !Relocatable(built)
    ensures !ConvertExtensionsEnabled(setting) ==> r == Ok(RequestFlagsCoerced(built))
  {
    CoercionKeepsWalks(built);
    var coerced := RequestFlagsCoerced(built);
    if ConvertExtensionsEnabled(setting) then ExtensionFieldsConverted(coerced) else Ok(coerced)
  }

  /** A coerced flag path leads through no slot of any location. */
  lemma FlagPathApart(q: Path, l: Location, k: string)
    requires q == DntPath || q == MobilePath || q == TestPath
    requires k == ExtKey || k == VendorKey(l)
    ensures !Comparable(q, At(l) + [Key(k)])
  {
    var s := At(l) + [Key(k)];
    if q[0] != s[0] {
      StepsDiffer(q, s, 0);
    } else {
      StepsDiffer(q, s, 1);
    }
  }

  lemma FlagPathsApart(q: Path)
    requires q == DntPath || q == MobilePath || q == TestPath
    ensures forall l :: !Comparable(q, ExtSlot(l)) && !Comparable(q, VendorSlot(l))
  {
    forall l
      ensures !Comparable(q, ExtSlot(l)) && !Comparable(q, VendorSlot(l))
    {
      FlagPathApart(q, l, ExtKey);
      FlagPathApart(q, l, VendorKey(l));
    }
  }

  /** Flag coercion changes neither the slots of any location nor what the
      two walks and the `null` check read. */
  lemma CoercionKeepsWalks(built: Json)
    ensures forall l :: GetAt(RequestFlagsCoerced(built), ExtSlot(l)) == GetAt(built, ExtSlot(l))
    ensures forall l :: GetAt(RequestFlagsCoerced(built), VendorSlot(l)) == GetAt(built, VendorSlot(l))
    ensures GetAt(RequestFlagsCoerced(built), ImpPath) == GetAt(built, ImpPath)
    ensures GetAt(RequestFlagsCoerced(built), DataPath) == GetAt(built, DataPath)
    ensures Relocatable(RequestFlagsCoerced(built)) <==> Relocatable(built)
    ensures ExtLocations(RequestFlagsCoerced(built)) == ExtLocations(built)
  {
    RequestFlagsCoercion(built);
    FlagPathsApart(DntPath);
    FlagPathsApart(MobilePath);
    FlagPathsApart(TestPath);
    StepsDiffer(ImpPath, DntPath, 0);
    StepsDiffer(ImpPath, MobilePath, 0);
    StepsDiffer(ImpPath, TestPath, 0);
    StepsDiffer(DataPath, DntPath, 0);
    StepsDiffer(DataPath, MobilePath, 0);
    StepsDiffer(DataPath, TestPath, 0);
    var first := CoercedAt(built, DntPath);
    var second := CoercedAt(first, MobilePath);
    UpdateAtKeepsTop(built, DntPath, FlagFn());
    UpdateAtKeepsTop(first, MobilePath, FlagFn());
    UpdateAtKeepsTop(second, TestPath, FlagFn());
  }

  /** With conversion disabled every `ext` stays where it was. */
  lemma DisabledKeepsExtensions(built: Json, setting: Option<Json>)
    requires !ConvertExtensionsEnabled(setting)
    ensures PostProcessedRequest(built, setting).Ok?
    ensures forall l :: GetAt(PostProcessedRequest(built, setting).value, ExtSlot(l)) == GetAt(built, ExtSlot(l))
  {
    CoercionKeepsWalks(built);
  }

  /** With conversion enabled and a request it can walk, every visited
      location ends with no truthy `ext`, and a truthy one is now under its
      vendor key. */
  lemma EnabledRelocates(built: Json, setting: Option<Json>)
    requires ConvertExtensionsEnabled(setting) && Relocatable(built)
    ensures PostProcessedRequest(built, setting).Ok?
    ensures forall l :: Listed(built, l) ==>
      !Truthy(GetAt(PostProcessedRequest(built, setting).value, ExtSlot(l)))
    ensures forall l :: Listed(built, l) && Truthy(GetAt(built, ExtSlot(l))) ==>
      GetAt(PostProcessedRequest(built, setting).value, VendorSlot(l)) ==
        Some(MovedCopy(l, GetAt(built, ExtSlot(l)).value))
  {
    var coerced := RequestFlagsCoerced(built);
    CoercionKeepsWalks(built);
    forall l | Listed(built, l)
      ensures !Truthy(GetAt(Relocated(coerced), ExtSlot(l)))
      ensures Truthy(GetAt(built, ExtSlot(l))) ==>
        GetAt(Relocated(coerced), VendorSlot(l)) == Some(MovedCopy(l, GetAt(built, ExtSlot(l)).value))
    {
      RelocationMoves(coerced, l);
    }
  }

  /** Whatever the setting, a processed request carries the coerced flags:
      relocation never touches them. */
  lemma PostProcessedFlags(built: Json, setting: Option<Json>)
    requires PostProcessedRequest(built, setting).Ok?
    ensures GetAt(PostProcessedRequest(built, setting).value, DntPath) == FlagOf(GetAt(built, DntPath))
    ensures GetAt(PostProcessedRequest(built, setting).value, MobilePath) == FlagOf(GetAt(built, MobilePath))
    ensures GetAt(PostProcessedRequest(built, setting).value, TestPath) == FlagOf(GetAt(built, TestPath))
  {
    var coerced := RequestFlagsCoerced(built);
    RequestFlagsCoercion(built);
    FlagPathsApart(DntPath);
    FlagPathsApart(MobilePath);
    FlagPathsApart(TestPath);
    if ConvertExtensionsEnabled(setting) {
      RelocationFrame(coerced, DntPath);
      RelocationFrame(coerced, MobilePath);
      RelocationFrame(coerced, TestPath);
    }
  }

  /** `config.getConfig('allegro.bidderUrl') || BIDDER_URL`: a truthy
      override wins, and the URL is never falsy. */
  function RequestUrl(setting: Option<Json>): (url: Json)
    ensures Truthy(Some(url))
    ensures Truthy(setting) ==> url == setting.value
    ensures !Truthy(setting) ==> url == JStr(BidderUrl)
  {
    if Truthy(setting) then setting.value else JStr(BidderUrl)
  }

  /** The request `buildRequests` returns. */
  datatype ServerRequest = ServerRequest(httpMethod: string, url: Json, data: Json, contentType: string)

  /** `buildRequests`, given the OpenRTB request the converter produced. */
  function BuildRequests(urlSetting: Option<Json>, ortb: Json): (r: ServerRequest)
    ensures r.httpMethod == "POST" && r.contentType == "application/json"
    ensures r.data == ortb
    ensures r.url == RequestUrl(urlSetting)
    ensures Truthy(Some(r.url))
    ensures Truthy(urlSetting) ==> r.url == urlSetting.value
    ensures !Truthy(urlSetting) ==> r.url == JStr(BidderUrl)
  {
    ServerRequest("POST", RequestUrl(urlSetting), ortb, "application/json")
  }

  /** `onBidWon`: the URL handed to `triggerPixel`, if any. The pixel fires
      exactly when the setting is truthy and `bid.burl` is truthy, with
      `burl` unchanged; with a truthy setting a `null` bid throws. */
  function WinPixel(setting: Option<Json>, bid: Json): (r: Result<Option<Json>>)
    ensures r.TypeError? <==> Truthy(setting) && bid == JNull
    ensures r.Ok? ==> (r.value.Some? <==> Truthy(setting) && Truthy(Field(bid, "burl")))
    ensures r.Ok? && r.value.Some? ==> Field(bid, "burl") == r.value
  {
    if !Truthy(setting) then Ok(None)
    else if bid == JNull then TypeError
    else if Truthy(Field(bid, "burl")) then Ok(Field(bid, "burl"))
    else Ok(None)
  }
}
