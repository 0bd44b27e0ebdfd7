/** The CloudTrail controls 2.1, 2.2, 2.4 and 2.7, evaluated from the trail
    lists of every region. */
module Trails {
  import opened Results

  /** The texts the controls report. */
  const AllRegionsDescription := "Ensure CloudTrail is enabled in all regions"
  const ValidationDescription := "Ensure CloudTrail log file validation is enabled"
  const CloudWatchDescription := "Ensure CloudTrail trails are integrated with CloudWatch Logs"
  const KmsDescription := "Ensure CloudTrail logs are encrypted at rest using KMS CMKs"

  /** One entry of 'trailList' (`describe_trails`). `isLogging` is the
      'IsLogging' answer of `get_trail_status` for that trail; the two
      optional entries are absent from the response when unset. */
  datatype Trail = Trail(
    trailArn: string,
    isMultiRegionTrail: bool,
    isLogging: bool,
    logFileValidationEnabled: bool,
    cloudWatchLogsLogGroupArn: Option<string>,
    kmsKeyId: Option<string>)

  /** The trails of one region. No control reads the region name itself. */
  datatype RegionTrails = RegionTrails(trails: seq<Trail>)

  /** The region-to-trails dictionary `get_cloudtrails` builds, listed in the
      order `iteritems()` visits it. That order is not specified, so the
      properties below hold for every order. */
  type CloudTrails = seq<RegionTrails>

  // ---------------------------------------------------------------------
  // 2.1 Ensure CloudTrail is enabled in all regions

  predicate EnabledMultiRegion(t: Trail)
  {
    t.isMultiRegionTrail && t.isLogging
  }

  /** Some of the first `n` trails is multi-region and logging. */
  predicate EnabledAmong(trails: seq<Trail>, n: int)
    requires n <= |trails|
  {
    exists j :: 0 <= j < n && EnabledMultiRegion(trails[j])
  }

  /** Some of the first `n` regions has an enabled multi-region trail. */
  predicate EnabledInRegions(cloudtrails: CloudTrails, n: int)
    requires n <= |cloudtrails|
  {
    exists k :: 0 <= k < n && EnabledAmong(cloudtrails[k].trails, |cloudtrails[k].trails|)
  }

  const NoTrailReason := "No enabled multi region trails found"

  function AllRegionsResult(cloudtrails: CloudTrails): (r: ControlResult)
    ensures r.offenders == [] && r.controlId == "2.1" && r.scoredControl
  {
    var found := EnabledInRegions(cloudtrails, |cloudtrails|);
    ControlResult(Bool(found), if found then "" else NoTrailReason, [], true,
                  AllRegionsDescription, "2.1")
  }

  method Control2_1(cloudtrails: CloudTrails) returns (r: ControlResult)
    ensures r == AllRegionsResult(cloudtrails)
  {
    var result := false;
    var failReason := "";
    for i := 0 to |cloudtrails|
      invariant result <==> EnabledInRegions(cloudtrails, i)
    {
      var trails := cloudtrails[i].trails;
      var j := 0;
      while j < |trails|
        invariant 0 <= j <= |trails|
        invariant result <==> EnabledInRegions(cloudtrails, i) || EnabledAmong(trails, j)
      {
        var o := trails[j];
        if o.isMultiRegionTrail {
          if o.isLogging == true {
            result := true;
            break;
          }
        }
        j := j + 1;
      }
      assert result <==> EnabledInRegions(cloudtrails, i) || EnabledAmong(trails, |trails|);
    }
    if result == false {
      failReason := NoTrailReason;
    }
    r := ControlResult(Bool(result), failReason, [], true,
                       AllRegionsDescription, "2.1");
  }

  /** 2.1 passes exactly when one trail, in one region, is multi-region and
      logging: one such trail is enough, whatever the other regions hold. */
  lemma AllRegionsMeaning(cloudtrails: CloudTrails)
    ensures AllRegionsResult(cloudtrails).result == Bool(true)
        <==> exists i, j :: 0 <= i < |cloudtrails| && 0 <= j < |cloudtrails[i].trails|
               && cloudtrails[i].trails[j].isMultiRegionTrail && cloudtrails[i].trails[j].isLogging
    ensures AllRegionsResult(cloudtrails).result == Bool(false)
        ==> AllRegionsResult(cloudtrails).failReason == NoTrailReason
  {
    if exists i, j :: 0 <= i < |cloudtrails| && 0 <= j < |cloudtrails[i].trails|
         && cloudtrails[i].trails[j].isMultiRegionTrail && cloudtrails[i].trails[j].isLogging {
      var i, j :| 0 <= i < |cloudtrails| && 0 <= j < |cloudtrails[i].trails|
         && cloudtrails[i].trails[j].isMultiRegionTrail && cloudtrails[i].trails[j].isLogging;
      assert EnabledMultiRegion(cloudtrails[i].trails[j]);
      assert EnabledAmong(cloudtrails[i].trails, |cloudtrails[i].trails|);
    }
  }

  // ---------------------------------------------------------------------
  // 2.2, 2.4, 2.7: one offender per failing trail

  /** The per-trail test of 2.2 (log file validation), 2.4 (CloudWatch Logs)
      and 2.7 (KMS encryption). */
  datatype TrailCheck = Validation | CloudWatch | Kms

  function TrailOffender(check: TrailCheck, t: Trail): seq<string>
  {
    match check
    case Validation => if t.logFileValidationEnabled == false then [t.trailArn] else []
    case CloudWatch =>
      (match t.cloudWatchLogsLogGroupArn
       case Some(group) => if Contains(group, "arn:aws:logs") then [] else [t.trailArn]
       case None => [t.trailArn])
    case Kms =>
      // `if o['KmsKeyId']: pass` raises only when the entry is absent; an
      // empty identifier neither passes nor fails.
      if t.kmsKeyId.None? then ["Trail:" + t.trailArn] else []
  }

  function TrailsOffenders(check: TrailCheck, trails: seq<Trail>): seq<string>
  {
    Gather(t => TrailOffender(check, t), trails)
  }

  function RegionOffenders(check: TrailCheck, region: RegionTrails): seq<string>
  {
    TrailsOffenders(check, region.trails)
  }

  function CloudTrailsOffenders(check: TrailCheck, cloudtrails: CloudTrails): seq<string>
  {
    Gather(r => RegionOffenders(check, r), cloudtrails)
  }

  /** The double loop the three controls share: every trail of every region,
      appending the failing ones. */
  method CollectTrailOffenders(check: TrailCheck, cloudtrails: CloudTrails) returns (offenders: seq<string>)
    ensures offenders == CloudTrailsOffenders(check, cloudtrails)
  {
    offenders := [];
    for i := 0 to |cloudtrails|
      invariant offenders == CloudTrailsOffenders(check, cloudtrails[..i])
    {
      var trails := cloudtrails[i].trails;
      ghost var before := offenders;
      for j := 0 to |trails|
        invariant offenders == before + TrailsOffenders(check, trails[..j])
      {
        var o := trails[j];
        var bad := false;
        match check {
          case Validation =>
            bad := o.logFileValidationEnabled == false;
          case CloudWatch =>
            match o.cloudWatchLogsLogGroupArn {
              case Some(group) => bad := !Contains(group, "arn:aws:logs");
              case None => bad := true;
            }
          case Kms =>
            bad := o.kmsKeyId.None?;
        }
        if bad {
          offenders := offenders + [if check == Kms then "Trail:" + o.trailArn else o.trailArn];
        }
        GatherStep(t => TrailOffender(check, t), trails, j);
      }
      assert trails[..|trails|] == trails;
      GatherStep(r => RegionOffenders(check, r), cloudtrails, i);
    }
    assert cloudtrails[..|cloudtrails|] == cloudtrails;
  }

  const ValidationReason := "CloudTrails without log file validation discovered"
  const CloudWatchReason := "CloudTrails without CloudWatch Logs discovered"
  const KmsReason := "CloudTrail not using KMS CMK for encryption discovered"

  function ValidationResult(cloudtrails: CloudTrails): ControlResult
  {
    Enumeration(CloudTrailsOffenders(Validation, cloudtrails), ValidationReason, true,
                ValidationDescription, "2.2")
  }

  function CloudWatchResult(cloudtrails: CloudTrails): ControlResult
  {
    Enumeration(CloudTrailsOffenders(CloudWatch, cloudtrails), CloudWatchReason, true,
                CloudWatchDescription, "2.4")
  }

  /** 2.7, which reports itself under the identifier "2.6". */
  function KmsResult(cloudtrails: CloudTrails): ControlResult
  {
    Enumeration(CloudTrailsOffenders(Kms, cloudtrails), KmsReason, true,
                KmsDescription, "2.6")
  }

  method Control2_2(cloudtrails: CloudTrails) returns (r: ControlResult)
    ensures r == ValidationResult(cloudtrails)
  {
    var offenders := CollectTrailOffenders(Validation, cloudtrails);
    r := Enumeration(offenders, ValidationReason, true,
                     ValidationDescription, "2.2");
  }

  method Control2_4(cloudtrails: CloudTrails) returns (r: ControlResult)
    ensures r == CloudWatchResult(cloudtrails)
  {
    var offenders := CollectTrailOffenders(CloudWatch, cloudtrails);
    r := Enumeration(offenders, CloudWatchReason, true,
                     CloudWatchDescription, "2.4");
  }

  method Control2_7(cloudtrails: CloudTrails) returns (r: ControlResult)
    ensures r == KmsResult(cloudtrails)
  {
    var offenders := CollectTrailOffenders(Kms, cloudtrails);
    r := Enumeration(offenders, KmsReason, true,
                     KmsDescription, "2.6");
  }

  // ---------------------------------------------------------------------
  // Properties of the trail offenders

  /** An offender of 2.2, 2.4 or 2.7 is the offender of one trail of one
      region, and every failing trail is listed. */
  lemma CloudTrailsOffendersMembers(check: TrailCheck, cloudtrails: CloudTrails, x: string)
    ensures x in CloudTrailsOffenders(check, cloudtrails)
        <==> exists i, j :: 0 <= i < |cloudtrails| && 0 <= j < |cloudtrails[i].trails|
               && x in TrailOffender(check, cloudtrails[i].trails[j])
  {
    GatherMembers(r => RegionOffenders(check, r), cloudtrails, x);
    forall i | 0 <= i < |cloudtrails|
      ensures x in RegionOffenders(check, cloudtrails[i])
          <==> exists j :: 0 <= j < |cloudtrails[i].trails| && x in TrailOffender(check, cloudtrails[i].trails[j])
    {
      GatherMembers(t => TrailOffender(check, t), cloudtrails[i].trails, x);
    }
  }

  /** 2.2 lists the ARN of exactly the trails whose log file validation is off. */
  lemma ValidationMeaning(cloudtrails: CloudTrails, x: string)
    ensures x in ValidationResult(cloudtrails).offenders
        <==> exists i, j :: 0 <= i < |cloudtrails| && 0 <= j < |cloudtrails[i].trails|
               && !cloudtrails[i].trails[j].logFileValidationEnabled
               && x == cloudtrails[i].trails[j].trailArn
  {
    CloudTrailsOffendersMembers(Validation, cloudtrails, x);
  }

  /** 2.4 lists the ARN of exactly the trails without a log group, or whose
      log group does not contain "arn:aws:logs". */
  lemma CloudWatchMeaning(cloudtrails: CloudTrails, x: string)
    ensures x in CloudWatchResult(cloudtrails).offenders
        <==> exists i, j :: 0 <= i < |cloudtrails| && 0 <= j < |cloudtrails[i].trails|
               && (|| cloudtrails[i].trails[j].cloudWatchLogsLogGroupArn.None?
                   || !Contains(cloudtrails[i].trails[j].cloudWatchLogsLogGroupArn.value, "arn:aws:logs"))
               && x == cloudtrails[i].trails[j].trailArn
  {
    CloudTrailsOffendersMembers(CloudWatch, cloudtrails, x);
  }

  /** 2.7 lists "Trail:" and the ARN of exactly the trails without a KMS key
      entry; an empty key identifier does not count as missing. */
  lemma KmsMeaning(cloudtrails: CloudTrails, x: string)
    ensures x in KmsResult(cloudtrails).offenders
        <==> exists i, j :: 0 <= i < |cloudtrails| && 0 <= j < |cloudtrails[i].trails|
               && cloudtrails[i].trails[j].kmsKeyId.None?
               && x == "Trail:" + cloudtrails[i].trails[j].trailArn
    ensures KmsResult(cloudtrails).controlId == "2.6"
  {
    CloudTrailsOffendersMembers(Kms, cloudtrails, x);
  }

  /** The offenders do not depend on the dictionary's iteration order: any
      reordering of the regions lists the same offenders, as often. */
  lemma OffendersIgnoreRegionOrder(check: TrailCheck, a: CloudTrails, b: CloudTrails)
    requires multiset(a) == multiset(b)
    ensures multiset(CloudTrailsOffenders(check, a)) == multiset(CloudTrailsOffenders(check, b))
  {
    GatherIgnoresOrder(r => RegionOffenders(check, r), a, b);
  }
}
