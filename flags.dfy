/** The integer-flag to boolean coercion of the `imp` and `request` hooks:
    each of five known fields, when present, is replaced by `value === 1`. */
module FlagCoercion {
  import opened JsonValues
  import opened Paths

  /** `v === 1` as a JSON value. Only the number 1 gives `true`; a field that
      already holds `true` becomes `false`. */
  function Flag(v: Json): (r: Json)
    ensures r.JBool? && (r.b <==> v == JNum(1))
    ensures r == JBool(true) ==> v.JNum? && v.n == 1
  {
    JBool(v == JNum(1))
  }

  function FlagFn(): Json -> Json {
    v => Flag(v)
  }

  /** The coercion result of a property read: absent stays absent. */
  function FlagOf(p: Option<Json>): Option<Json> {
    match p
    case None => None
    case Some(v) => Some(Flag(v))
  }

  const TopframePath: Path := [Key("banner"), Key("topframe")]
  const SecurePath: Path := [Key("secure")]
  const DntPath: Path := [Key("device"), Key("dnt")]
  const MobilePath: Path := [Key("device"), Key("sua"), Key("mobile")]
  const TestPath: Path := [Key("test")]

  /** `if (x?.…?.f !== undefined) x.….f = x.….f === 1` for the field at `p`. */
  function CoercedAt(j: Json, p: Path): Json {
    UpdateAt(j, p, FlagFn())
  }

  /** The `imp` hook after `buildImp`: `banner.topframe`, then `secure`. */
  function ImpFlagsCoerced(imp: Json): Json {
    CoercedAt(CoercedAt(imp, TopframePath), SecurePath)
  }

  /** The first half of the `request` hook after `buildRequest`:
      `device.dnt`, `device.sua.mobile`, then `test`. */
  function RequestFlagsCoerced(req: Json): Json {
    CoercedAt(CoercedAt(CoercedAt(req, DntPath), MobilePath), TestPath)
  }

  /** One coercion: the field at `p` is coerced if present and left absent
      otherwise, and nothing at a path that does not lead through `p`, or to
      it, changes. */
  lemma CoercedAtEffect(j: Json, p: Path, q: Path)
    ensures GetAt(CoercedAt(j, p), p) == FlagOf(GetAt(j, p))
    ensures !Comparable(p, q) ==> GetAt(CoercedAt(j, p), q) == GetAt(j, q)
  {
    UpdateAtHit(j, p, FlagFn());
    if !Comparable(p, q) {
      UpdateAtFrame(j, p, FlagFn(), q);
    }
  }

  lemma ImpPathsApart()
    ensures !Comparable(TopframePath, SecurePath)
  {
    assert TopframePath[0] != SecurePath[0];
  }

  lemma RequestPathsApart()
    ensures !Comparable(DntPath, MobilePath)
    ensures !Comparable(DntPath, TestPath)
    ensures !Comparable(MobilePath, TestPath)
  {
    assert DntPath[1] != MobilePath[1];
    assert DntPath[0] != TestPath[0];
    assert MobilePath[0] != TestPath[0];
  }

  /** The `imp` hook coerces `banner.topframe` and `secure` when present,
      creates neither when absent, and changes nothing else. */
  lemma ImpFlagsCoercion(imp: Json)
    ensures GetAt(ImpFlagsCoerced(imp), TopframePath) == FlagOf(GetAt(imp, TopframePath))
    ensures GetAt(ImpFlagsCoerced(imp), SecurePath) == FlagOf(GetAt(imp, SecurePath))
    ensures forall q :: !Comparable(TopframePath, q) && !Comparable(SecurePath, q) ==>
      GetAt(ImpFlagsCoerced(imp), q) == GetAt(imp, q)
  {
    var first := CoercedAt(imp, TopframePath);
    ImpPathsApart();
    CoercedAtEffect(imp, TopframePath, SecurePath);
    CoercedAtEffect(first, SecurePath, TopframePath);
    forall q | !Comparable(TopframePath, q) && !Comparable(SecurePath, q)
      ensures GetAt(ImpFlagsCoerced(imp), q) == GetAt(imp, q)
    {
      CoercedAtEffect(imp, TopframePath, q);
      CoercedAtEffect(first, SecurePath, q);
    }
  }

  /** The `request` hook coerces `device.dnt`, `device.sua.mobile` and `test`
      when present, creates none of them when absent, and changes nothing
      else. */
  lemma RequestFlagsCoercion(req: Json)
    ensures GetAt(RequestFlagsCoerced(req), DntPath) == FlagOf(GetAt(req, DntPath))
    ensures GetAt(RequestFlagsCoerced(req), MobilePath) == FlagOf(GetAt(req, MobilePath))
    ensures GetAt(RequestFlagsCoerced(req), TestPath) == FlagOf(GetAt(req, TestPath))
    ensures forall q :: !Comparable(DntPath, q) && !Comparable(MobilePath, q) && !Comparable(TestPath, q) ==>
      GetAt(RequestFlagsCoerced(req), q) == GetAt(req, q)
  {
    var first := CoercedAt(req, DntPath);
    var second := CoercedAt(first, MobilePath);
    RequestPathsApart();
    CoercedAtEffect(req, DntPath, MobilePath);
    CoercedAtEffect(req, DntPath, TestPath);
    CoercedAtEffect(first, MobilePath, DntPath);
    CoercedAtEffect(first, MobilePath, TestPath);
    CoercedAtEffect(second, TestPath, DntPath);
    CoercedAtEffect(second, TestPath, MobilePath);
    forall q | !Comparable(DntPath, q) && !Comparable(MobilePath, q) && !Comparable(TestPath, q)
      ensures GetAt(RequestFlagsCoerced(req), q) == GetAt(req, q)
    {
      CoercedAtEffect(req, DntPath, q);
      CoercedAtEffect(first, MobilePath, q);
      CoercedAtEffect(second, TestPath, q);
    }
  }
}
