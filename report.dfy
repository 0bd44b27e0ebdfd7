/** The run of the auditor: `lambda_handler` evaluating every control and
    assembling the two-level report, the short JSON annotation of failed
    controls, and the colour the HTML report gives each result. */
module Report {
  import opened Results
  import opened Credentials
  import opened PasswordPolicy
  import opened Manual
  import opened Trails
  import opened Network

  // ---------------------------------------------------------------------
  // The report

  /** One category dictionary, whose keys are 1 to len: result k + 1 is at
      index k. */
  type Category = seq<ControlResult>

  /** `controls`: category n + 1 at index n. */
  type Controls = seq<Category>

  /** `category[key] = result` on a dictionary whose keys are 1 to len: an
      existing key is overwritten, the next key is added. */
  function Assign(category: Category, key: int, r: ControlResult): (c: Category)
    requires 1 <= key <= |category| + 1
    ensures |c| == if key <= |category| then |category| else |category| + 1
    ensures c[key - 1] == r
    ensures forall k :: 0 <= k < |category| && k != key - 1 ==> c[k] == category[k]
  {
    if key <= |category| then category[key - 1 := r] else category + [r]
  }

  // ---------------------------------------------------------------------
  // shortAnnotation

  /** The ControlIds of a category's results whose Result is the boolean
      False (`is False`: text results never count), in key order. */
  function FailedInCategory(category: Category): seq<string>
  {
    if category == [] then []
    else
      var last := category[|category| - 1];
      FailedInCategory(category[..|category| - 1]) + (if last.result == Bool(false) then [last.controlId] else [])
  }

  /** The failed ControlIds, category after category. */
  function FailedIds(c: Controls): seq<string>
  {
    if c == [] then [] else FailedIds(c[..|c| - 1]) + FailedInCategory(c[|c| - 1])
  }

  /** `json.dumps` of a list of texts: quoted items separated by ", ". */
  function JsonList(items: seq<string>): string
  {
    "[" + JsonItems(items) + "]"
  }

  function JsonItems(items: seq<string>): string
  {
    if items == [] then ""
    else if |items| == 1 then "\"" + items[0] + "\""
    else JsonItems(items[..|items| - 1]) + ", \"" + items[|items| - 1] + "\""
  }

  const AnnotationHead := "{\"FailedControls\":"

  method ShortAnnotation(controlResult: Controls) returns (annotation: string)
    ensures annotation == AnnotationHead + JsonList(FailedIds(controlResult)) + "}"
  {
    var failed: seq<string> := [];
    for n := 0 to |controlResult|
      invariant failed == FailedIds(controlResult[..n])
    {
      var category := controlResult[n];
      ghost var before := failed;
      for x := 0 to |category|
        invariant failed == before + FailedInCategory(category[..x])
      {
        if category[x].result == Bool(false) {
          failed := failed + [category[x].controlId];
        }
        assert category[..x + 1][..x] == category[..x];
      }
      assert category[..|category|] == category;
      assert controlResult[..n + 1][..n] == controlResult[..n];
    }
    assert controlResult[..|controlResult|] == controlResult;
    annotation := AnnotationHead + JsonList(failed) + "}";
  }

  lemma {:induction false} FailedInCategoryMembers(category: Category, id: string)
    ensures id in FailedInCategory(category)
        <==> exists k :: 0 <= k < |category| && category[k].result == Bool(false) && category[k].controlId == id
    decreases |category|
  {
    if category != [] {
      var init := category[..|category| - 1];
      FailedInCategoryMembers(init, id);
      assert forall k :: 0 <= k < |init| ==> init[k] == category[k];
    }
  }

  /** The annotation lists exactly the ControlIds of results that are the
      boolean False; "Manual", "True" and every other text result never
      appear. */
  lemma {:induction false} FailedIdsMembers(c: Controls, id: string)
    ensures id in FailedIds(c)
        <==> exists n, k :: 0 <= n < |c| && 0 <= k < |c[n]|
               && c[n][k].result == Bool(false) && c[n][k].controlId == id
    decreases |c|
  {
    if c != [] {
      var init := c[..|c| - 1];
      FailedIdsMembers(init, id);
      FailedInCategoryMembers(c[|c| - 1], id);
      assert forall n :: 0 <= n < |init| ==> init[n] == c[n];
    }
  }

  /** Category order: the annotation of the first categories comes first,
      unchanged, whatever the later categories hold. */
  lemma {:induction false} FailedIdsPrefix(c: Controls, n: nat)
    requires n <= |c|
    ensures FailedIds(c[..n]) <= FailedIds(c)
    decreases |c| - n
  {
    if n < |c| {
      FailedIdsPrefix(c[..|c| - 1], n);
      assert c[..|c| - 1][..n] == c[..n];
    } else {
      assert c[..n] == c;
    }
  }

  /** A category with no boolean False result adds nothing to the annotation. */
  lemma {:induction false} NoFailureNoEntry(category: Category)
    requires forall k :: 0 <= k < |category| ==> category[k].result != Bool(false)
    ensures FailedInCategory(category) == []
    decreases |category|
  {
    if category != [] {
      NoFailureNoEntry(category[..|category| - 1]);
    }
  }

  /** Each listed ControlId appears quoted in the JSON text. */
  lemma {:induction false} JsonItemsInclude(items: seq<string>, i: int)
    requires 0 <= i < |items|
    ensures Contains(JsonItems(items), "\"" + items[i] + "\"")
    decreases |items|
  {
    var q := "\"" + items[i] + "\"";
    if |items| == 1 {
      ContainsPrefix(q, []);
      assert q + [] == q;
    } else if i < |items| - 1 {
      JsonItemsInclude(items[..|items| - 1], i);
      var p := JsonItems(items[..|items| - 1]);
      var k := ContainsWitness(p, q);
      var whole := p + ", \"" + items[|items| - 1] + "\"";
      assert whole[k..k + |q|] == p[k..k + |q|];
      ContainsAt(whole, q, k);
    } else {
      var p := JsonItems(items[..|items| - 1]);
      assert JsonItems(items) == (p + ", ") + q;
      ContainsSuffix(p + ", ", q);
    }
  }

  // ---------------------------------------------------------------------
  // json2html: the colour of a result

  const Red := " style=\"background-color:#ef3d47;\""
  const Yellow := " style=\"background-color:#ffff99;\""
  const Green := " style=\"background-color:lightgreen;\""

  /** The style of a result's header cell, chosen on `str(Result)`. */
  function ResultStyle(v: Verdict): string
  {
    if Str(v) == "False" then Red else if Str(v) == "Manual" then Yellow else Green
  }

  /** The colour agrees with the annotation: red exactly for the results the
      annotation lists, apart from a text "False" that no control returns;
      yellow exactly for "Manual"; green for every other value, the text
      "True" of 1.18 included. */
  lemma StyleMeaning(v: Verdict)
    ensures v != Text("False") ==> (ResultStyle(v) == Red <==> v == Bool(false))
    ensures ResultStyle(v) == Yellow <==> v == Text("Manual")
    ensures ResultStyle(v) == Green <==> v != Bool(false) && v != Text("False") && v != Text("Manual")
    ensures ResultStyle(Text("True")) == Green && ResultStyle(Bool(true)) == Green
  {
    assert "False" != "Manual";
  }

  // ---------------------------------------------------------------------
  // lambda_handler

  /** What the AWS calls return: the model's inputs. `states` and `content`
      feed `get_cred_report`; `groups` answers `describe_security_groups`
      for 4.1 and 4.2, and `defaults` the same call filtered on the group
      name "default" for 4.4. */
  datatype Evidence = Evidence(
    now: int,
    parse: Parser,
    states: nat -> string,
    content: seq<Row>,
    policy: Policy,
    cloudtrails: CloudTrails,
    render: Render,
    groups: seq<RegionGroups>,
    defaults: seq<RegionGroups>,
    routeTables: seq<RegionRouteTables>)

  /** The results of the controls this model does not evaluate, in the
      handler's order; `logMetrics` holds those of 3.1 to 3.14. */
  datatype OtherResults = OtherResults(
    rootMfa: ControlResult,
    rootHardwareMfa: ControlResult,
    userPolicies: ControlResult,
    instanceRoles: ControlResult,
    incidentRoles: ControlResult,
    initialKeys: ControlResult,
    permissivePolicies: ControlResult,
    trailBucketPublic: ControlResult,
    configAllRegions: ControlResult,
    trailBucketLogging: ControlResult,
    keyRotation: ControlResult,
    logMetrics: seq<ControlResult>,
    flowLogs: ControlResult)

  /** No report within the 11 polls. */
  predicate NeverComplete(states: nat -> string)
  {
    forall k :: 0 <= k < 11 ==> states(k) != Complete
  }

  /** Every column the credential controls read outside a `try`, and the
      policy entry 1.11 reads, is there. */
  predicate Readable(e: Evidence)
  {
    && |e.content| > 0 && RootUseColumns <= e.content[0].Keys
    && HasColumns(e.content, Columns(Mfa))
    && HasColumns(e.content, Columns(Unused(e.now, e.parse)))
    && HasColumns(e.content, Columns(Rotation(e.now, e.parse)))
    && RootKeyColumns(e.content)
    && ExpiryReadable(e.policy)
  }

  /** The outcome of one run: 1.1 ends the run with the failure text when
      no credential report came, otherwise the run yields the report. */
  datatype Run = Aborted(status: string) | Completed(controls: Controls)

  /** 1.1 to 1.4, read from the credential report. */
  function CredentialControls(e: Evidence): Category
    requires Readable(e)
  {
    [RootUse(e.now, e.parse, e.content), MfaResult(e.content),
     UnusedResult(e.now, e.parse, e.content), RotationResult(e.now, e.parse, e.content)]
  }

  /** 1.5 to 1.11, read from the account password policy. */
  function PolicyControls(p: Policy): Category
    requires ExpiryReadable(p)
  {
    [Uppercase(p), Lowercase(p), Symbol(p), Number(p), Length(p), Reuse(p), Expire(p)]
  }

  /** 1.13 to 1.24. */
  function IamControls(o: OtherResults): Category
  {
    [o.rootMfa, o.rootHardwareMfa, SecurityQuestions(), o.userPolicies,
     DetailedBilling(), IamMasterManagerRoles(), ContactDetails(), SecurityContact(),
     o.instanceRoles, o.incidentRoles, o.initialKeys, o.permissivePolicies]
  }

  function Category1(e: Evidence, o: OtherResults): Category
    requires Readable(e)
  {
    CredentialControls(e) + PolicyControls(e.policy) + [RootKeyExists(e.content)] + IamControls(o)
  }

  function Category2(e: Evidence, o: OtherResults): Category
  {
    [AllRegionsResult(e.cloudtrails), ValidationResult(e.cloudtrails), o.trailBucketPublic,
     CloudWatchResult(e.cloudtrails), o.configAllRegions, o.trailBucketLogging,
     KmsResult(e.cloudtrails), o.keyRotation]
  }

  /** Fifteen assignments to `control3[1]` leave only the last. */
  function Category3(): Category
  {
    [SnsSubscribers()]
  }

  function Category4(e: Evidence, o: OtherResults): Category
  {
    [SshResult(e.render, e.groups), RdpResult(e.render, e.groups), o.flowLogs,
     DefaultGroupsResult(e.defaults), PeeringResult(e.routeTables)]
  }

  function Assembled(e: Evidence, o: OtherResults): Controls
    requires Readable(e)
  {
    [Category1(e, o), Category2(e, o), Category3(), Category4(e, o)]
  }

  /** `control1[1]` to `control1[4]`, from the credential report. */
  method CredentialWrites(e: Evidence, report: seq<Row>) returns (control1: Category)
    requires Readable(e) && report == e.content
    ensures control1 == CredentialControls(e)
  {
    control1 := [];
    control1 := Assign(control1, 1, RootUse(e.now, e.parse, report));
    var r := Control1_2(report);
    control1 := Assign(control1, 2, r);
    r := Control1_3(e.now, e.parse, report);
    control1 := Assign(control1, 3, r);
    r := Control1_4(e.now, e.parse, report);
    control1 := Assign(control1, 4, r);
  }

  /** `control1[5]` to `control1[11]`, from the password policy. */
  method PolicyWrites(before: Category, p: Policy) returns (control1: Category)
    requires |before| == 4 && ExpiryReadable(p)
    ensures control1 == before + PolicyControls(p)
  {
    control1 := Assign(before, 5, Uppercase(p));
    control1 := Assign(control1, 6, Lowercase(p));
    control1 := Assign(control1, 7, Symbol(p));
    control1 := Assign(control1, 8, Number(p));
    control1 := Assign(control1, 9, Length(p));
    control1 := Assign(control1, 10, Reuse(p));
    control1 := Assign(control1, 11, Expire(p));
  }

  /** `control1[13]` to `control1[24]`. */
  method IamWrites(before: Category, o: OtherResults) returns (control1: Category)
    requires |before| == 12
    ensures control1 == before + IamControls(o)
  {
    control1 := Assign(before, 13, o.rootMfa);
    control1 := Assign(control1, 14, o.rootHardwareMfa);
    control1 := Assign(control1, 15, SecurityQuestions());
    control1 := Assign(control1, 16, o.userPolicies);
    control1 := Assign(control1, 17, DetailedBilling());
    control1 := Assign(control1, 18, IamMasterManagerRoles());
    control1 := Assign(control1, 19, ContactDetails());
    control1 := Assign(control1, 20, SecurityContact());
    control1 := Assign(control1, 21, o.instanceRoles);
    control1 := Assign(control1, 22, o.incidentRoles);
    control1 := Assign(control1, 23, o.initialKeys);
    control1 := Assign(control1, 24, o.permissivePolicies);
  }

  /** The 24 writes to `control1`, each to the next fresh key. */
  method Category1Results(e: Evidence, o: OtherResults, report: seq<Row>) returns (control1: Category)
    requires Readable(e) && report == e.content
    ensures control1 == Category1(e, o)
  {
    control1 := CredentialWrites(e, report);
    control1 := PolicyWrites(control1, e.policy);
    control1 := Assign(control1, 12, RootKeyExists(report));
    control1 := IamWrites(control1, o);
  }

  method Category2Results(e: Evidence, o: OtherResults) returns (control2: Category)
    ensures control2 == Category2(e, o)
  {
    control2 := [];
    var r := Control2_1(e.cloudtrails);
    control2 := Assign(control2, 1, r);
    r := Control2_2(e.cloudtrails);
    control2 := Assign(control2, 2, r);
    control2 := Assign(control2, 3, o.trailBucketPublic);
    r := Control2_4(e.cloudtrails);
    control2 := Assign(control2, 4, r);
    control2 := Assign(control2, 5, o.configAllRegions);
    control2 := Assign(control2, 6, o.trailBucketLogging);
    r := Control2_7(e.cloudtrails);
    control2 := Assign(control2, 7, r);
    control2 := Assign(control2, 8, o.keyRotation);
  }

  /** Fifteen writes, all to key 1: the results of 3.1 to 3.14, then 3.15. */
  method Category3Results(o: OtherResults) returns (control3: Category)
    requires |o.logMetrics| == 14
    ensures control3 == Category3()
  {
    control3 := [];
    for k := 0 to 14
      invariant k == 0 ==> control3 == []
      invariant k > 0 ==> control3 == [o.logMetrics[k - 1]]
    {
      control3 := Assign(control3, 1, o.logMetrics[k]);
    }
    control3 := Assign(control3, 1, SnsSubscribers());
  }

  method Category4Results(e: Evidence, o: OtherResults) returns (control4: Category)
    ensures control4 == Category4(e, o)
  {
    control4 := [];
    var r := Control4_1(e.render, e.groups);
    control4 := Assign(control4, 1, r);
    r := Control4_2(e.render, e.groups);
    control4 := Assign(control4, 2, r);
    control4 := Assign(control4, 3, o.flowLogs);
    r := Control4_4(e.defaults);
    control4 := Assign(control4, 4, r);
    r := Control4_5(e.routeTables);
    control4 := Assign(control4, 5, r);
  }

  method LambdaHandler(e: Evidence, o: OtherResults) returns (run: Run)
    requires |o.logMetrics| == 14
    requires NeverComplete(e.states) || Readable(e)
    ensures run.Aborted? <==> NeverComplete(e.states)
    ensures run.Aborted? ==> run.status == NoReport
    ensures run.Completed? ==> Readable(e) && run.controls == Assembled(e, o)
  {
    var credReport, calls := GetCredReport(e.states, e.content);
    if credReport.Failed? {
      // control_1_1_root_use: `"Fail" in credreport` ends the run.
      return Aborted(credReport.status);
    }
    var control1 := Category1Results(e, o, credReport.rows);
    var control2 := Category2Results(e, o);
    var control3 := Category3Results(o);
    var control4 := Category4Results(e, o);
    run := Completed([control1, control2, control3, control4]);
  }

  // ---------------------------------------------------------------------
  // Properties of the assembled report

  /** Category 3 holds only 3.15: none of the results of 3.1 to 3.14 that
      differ from it reaches the report, and since 3.15 is the boolean True,
      category 3 never adds to the annotation. */
  lemma OnlyLastLogMetricKept(o: OtherResults)
    ensures |Category3()| == 1 && Category3()[0].controlId == "3.15"
    ensures forall k :: 0 <= k < |o.logMetrics| && o.logMetrics[k] != SnsSubscribers()
              ==> o.logMetrics[k] !in Category3()
    ensures FailedInCategory(Category3()) == []
  {
    NoFailureNoEntry(Category3());
  }

  /** Of the two identical definitions of 4.5, the second is the one
      category 4 holds, once, as its fifth entry; the other entries the
      model evaluates carry their own identifiers. */
  lemma PeeringReportedOnce(e: Evidence, o: OtherResults)
    ensures |Category4(e, o)| == 5 && Category4(e, o)[4] == PeeringResult(e.routeTables)
    ensures Category4(e, o)[4].controlId == "4.5"
    ensures Category4(e, o)[0].controlId == "4.1" && Category4(e, o)[1].controlId == "4.2"
    ensures Category4(e, o)[3].controlId == "4.4"
  {
  }

  /** 2.7, the seventh entry of category 2, reports itself as "2.6": when it
      fails, the annotation of a report holding that category lists "2.6". */
  lemma KmsFailureAnnouncedAs26(e: Evidence, o: OtherResults, c: Controls)
    requires |c| == 4 && c[1] == Category2(e, o)
    ensures c[1][6] == KmsResult(e.cloudtrails) && c[1][6].controlId == "2.6"
    ensures KmsResult(e.cloudtrails).result == Bool(false) ==> "2.6" in FailedIds(c)
  {
    FailedIdsMembers(c, "2.6");
  }
}
