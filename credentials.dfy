/** The controls evaluated from the IAM credential report (1.1, 1.2, 1.3, 1.4
    and 1.12) and the loop that waits for the report to be generated. */
module Credentials {
  import opened Results
  import opened Elapsed

  /** The texts the controls report. */
  const RootUseDescription := "Avoid the use of the root account"
  const RootUseReason := "Used within 24h"
  const MfaDescription := "Ensure multi-factor authentication (MFA) is enabled for all IAM users that have a console password"
  const UnusedDescription := "Ensure credentials unused for 90 days or greater are disabled"
  const RotationDescription := "Ensure access keys are rotated every 90 days or less"
  const RootKeyReason := "Root have active access keys"
  const RootKeyDescription := "Ensure no root account access key exists"

  /** The credential report columns the controls read. */
  const Arn := "arn"
  const MfaActive := "mfa_active"
  const PasswordEnabled := "password_enabled"
  const Key1Active := "access_key_1_active"
  const Key2Active := "access_key_2_active"
  const PasswordLastUsedDate := "password_last_used_date"
  const Key1LastUsedDate := "access_key_1_last_used_date"
  const Key2LastUsedDate := "access_key_2_last_used_date"
  const PasswordLastChanged := "password_last_changed"
  const Key1LastRotated := "access_key_1_last_rotated"
  const Key2LastRotated := "access_key_2_last_rotated"
  const PasswordLastUsed := "password_last_used"

  /** One row of the credential report, as `csv.DictReader` yields it: column
      name to cell text. Row 0 describes the root account. */
  type Row = map<string, string>

  /** `datetime.strptime(text, '%Y-%m-%dT%H:%M:%S+00:00')` as seconds since the
      epoch; `None` where `strptime` raises, as it does for "N/A". */
  type Parser = string -> Option<int>

  /** Every row carries the given columns (a lookup of any other key may raise). */
  predicate HasColumns(rows: seq<Row>, cols: set<string>)
  {
    forall i :: 0 <= i < |rows| ==> cols <= rows[i].Keys
  }

  /** The timestamp read inside a `try`: `None` when the column is absent or
      its text does not parse, both of which the bare `except` swallows. */
  function Stamp(parse: Parser, row: Row, key: string): (t: Option<int>)
    ensures key !in row ==> t == None
    ensures key in row ==> t == parse(row[key])
  {
    if key in row then parse(row[key]) else None
  }

  /** The three credentials a row describes, and the columns that describe them. */
  datatype Credential = Password | AccessKey1 | AccessKey2

  function EnabledColumn(c: Credential): string
  {
    match c
    case Password => PasswordEnabled
    case AccessKey1 => Key1Active
    case AccessKey2 => Key2Active
  }

  /** The last-use column control 1.3 reads. For the password it is
      'password_last_used_date', a column the credential report does not
      have (the report calls it 'password_last_used'). */
  function LastUsedColumn(c: Credential): string
  {
    match c
    case Password => PasswordLastUsedDate
    case AccessKey1 => Key1LastUsedDate
    case AccessKey2 => Key2LastUsedDate
  }

  function RotatedColumn(c: Credential): string
  {
    match c
    case Password => PasswordLastChanged
    case AccessKey1 => Key1LastRotated
    case AccessKey2 => Key2LastRotated
  }

  /** The suffix control 1.3 appends to the user's ARN. */
  function UnusedSuffix(c: Credential): string
  {
    match c
    case Password => ":password"
    case AccessKey1 => ":key1"
    case AccessKey2 => ":key2"
  }

  // ---------------------------------------------------------------------
  // 1.1 Avoid the use of the root account

  /** CONTROL_1_1_DAYS */
  const Control1_1Days: int := 0

  /** The root-row columns 1.1 reads; each is read again, unguarded, in the
      `except` branch, so an absent one aborts the run. */
  const RootUseColumns: set<string> :=
    {PasswordLastUsed, Key1LastUsedDate, Key2LastUsedDate}

  /** `delta.days == CONTROL_1_1_DAYS and delta.seconds > 0` for a parsed stamp. */
  predicate UsedWithin24h(now: int, t: Option<int>)
  {
    t.Some? && Days(now, t.value) == Control1_1Days && Seconds(now, t.value) > 0
  }

  /** The three root-account timestamps 1.1 inspects, in the order it inspects them. */
  function RootStamps(parse: Parser, root: Row): seq<Option<int>>
  {
    [Stamp(parse, root, PasswordLastUsed),
     Stamp(parse, root, Key1LastUsedDate),
     Stamp(parse, root, Key2LastUsedDate)]
  }

  function RootUse(now: int, parse: Parser, credreport: seq<Row>): (r: ControlResult)
    requires |credreport| > 0 && RootUseColumns <= credreport[0].Keys
    ensures r.offenders == [] && r.controlId == "1.1" && r.scoredControl
    ensures r.result.Bool?
    ensures r.result.b <==> r.failReason == ""
  {
    var stamps := RootStamps(parse, credreport[0]);
    var used := UsedWithin24h(now, stamps[0]) || UsedWithin24h(now, stamps[1])
                || UsedWithin24h(now, stamps[2]);
    ControlResult(Bool(!used), if used then RootUseReason else "", [], true,
                  RootUseDescription, "1.1")
  }

  /** 1.1 fails exactly when one of the root account's password or keys was
      used strictly less than a day, and more than zero seconds, before `now`. */
  lemma RootUseMeaning(now: int, parse: Parser, credreport: seq<Row>)
    requires |credreport| > 0 && RootUseColumns <= credreport[0].Keys
    ensures RootUse(now, parse, credreport).result == Bool(false)
        <==> exists k :: 0 <= k < 3 && RootStamps(parse, credreport[0])[k].Some?
                 && 0 < now - RootStamps(parse, credreport[0])[k].value < SecondsPerDay
  {
    var stamps := RootStamps(parse, credreport[0]);
    forall k | 0 <= k < 3 && stamps[k].Some?
      ensures UsedWithin24h(now, stamps[k]) <==> 0 < now - stamps[k].value < SecondsPerDay
    {
      WithinOneDay(now, stamps[k].value);
    }
  }

  // ---------------------------------------------------------------------
  // The per-row checks of the enumeration controls 1.2, 1.3 and 1.4

  /** The check an enumeration control applies to each row. */
  datatype RowCheck = Mfa | Unused(now: int, parse: Parser) | Rotation(now: int, parse: Parser)

  /** The columns a check reads outside a `try`. */
  function Columns(check: RowCheck): set<string>
  {
    match check
    case Mfa => {PasswordEnabled, MfaActive, Arn}
    case Unused(_, _) => {PasswordEnabled, Key1Active, Key2Active, Arn}
    case Rotation(_, _) => {Key1Active, Key2Active, Arn}
  }

  /** 1.2: a console password without MFA. */
  predicate LacksMfa(row: Row)
    requires Columns(Mfa) <= row.Keys
  {
    row[PasswordEnabled] == "true" && row[MfaActive] == "false"
  }

  /** 1.3: an enabled credential whose last use parses and lies more than 90
      whole days before `now`. */
  predicate Stale(now: int, parse: Parser, row: Row, c: Credential)
    requires EnabledColumn(c) in row
  {
    var t := Stamp(parse, row, LastUsedColumn(c));
    row[EnabledColumn(c)] == "true" && t.Some? && Days(now, t.value) > 90
  }

  /** 1.4: an active key last rotated more than 90 whole days before `now`. */
  predicate Unrotated(now: int, parse: Parser, row: Row, c: Credential)
    requires EnabledColumn(c) in row
  {
    var t := Stamp(parse, row, RotatedColumn(c));
    row[EnabledColumn(c)] == "true" && t.Some? && Days(now, t.value) > 90
  }

  /** 1.4: an active key whose last use is more than one whole day after its
      last rotation. */
  predicate UsedLongAfterRotation(parse: Parser, row: Row, c: Credential)
    requires EnabledColumn(c) in row
  {
    var used := Stamp(parse, row, LastUsedColumn(c));
    var rotated := Stamp(parse, row, RotatedColumn(c));
    row[EnabledColumn(c)] == "true" && used.Some? && rotated.Some?
      && Days(used.value, rotated.value) > 1
  }

  function KeyName(c: Credential): string
  {
    match c
    case Password => "password"
    case AccessKey1 => "key1"
    case AccessKey2 => "key2"
  }

  function StaleOffender(now: int, parse: Parser, row: Row, c: Credential): seq<string>
    requires {EnabledColumn(c), Arn} <= row.Keys
  {
    if Stale(now, parse, row, c) then [row[Arn] + UnusedSuffix(c)] else []
  }

  function RotationOffenders(now: int, parse: Parser, row: Row, c: Credential): seq<string>
    requires {EnabledColumn(c), Arn} <= row.Keys
  {
    (if Unrotated(now, parse, row, c) then [row[Arn] + ":unrotated " + KeyName(c)] else [])
    + (if UsedLongAfterRotation(parse, row, c) then [row[Arn] + ":unused " + KeyName(c)] else [])
  }

  /** The offenders one row contributes, in the order the source appends them. */
  function RowOffenders(check: RowCheck, row: Row): seq<string>
    requires Columns(check) <= row.Keys
  {
    match check
    case Mfa => if LacksMfa(row) then [row[Arn]] else []
    case Unused(now, parse) =>
      StaleOffender(now, parse, row, Password) + StaleOffender(now, parse, row, AccessKey1)
      + StaleOffender(now, parse, row, AccessKey2)
    case Rotation(now, parse) =>
      RotationOffenders(now, parse, row, AccessKey1) + RotationOffenders(now, parse, row, AccessKey2)
  }

  /** `RowOffenders` on any row. A row that lacks a column the check reads
      would raise `KeyError`; the controls' preconditions exclude such rows,
      so the value given for them is never used. */
  function RowOffendersOf(check: RowCheck): Row -> seq<string>
  {
    (row: Row) => if Columns(check) <= row.Keys then RowOffenders(check, row) else []
  }

  /** The offenders of a whole report: each row's, in row order. */
  function ReportOffenders(check: RowCheck, rows: seq<Row>): seq<string>
  {
    Gather(RowOffendersOf(check), rows)
  }

  /** Row order is kept: the offenders of two stacked reports are the first
      report's followed by the second's. */
  lemma ReportOffendersConcat(check: RowCheck, a: seq<Row>, b: seq<Row>)
    ensures ReportOffenders(check, a + b) == ReportOffenders(check, a) + ReportOffenders(check, b)
  {
    GatherConcat(RowOffendersOf(check), a, b);
  }

  /** An offender of the report is an offender of one of its rows, and back. */
  lemma ReportOffendersMembers(check: RowCheck, rows: seq<Row>, x: string)
    requires HasColumns(rows, Columns(check))
    ensures x in ReportOffenders(check, rows)
        <==> exists i :: 0 <= i < |rows| && x in RowOffenders(check, rows[i])
  {
    GatherMembers(RowOffendersOf(check), rows, x);
    assert forall i :: 0 <= i < |rows| ==> RowOffendersOf(check)(rows[i]) == RowOffenders(check, rows[i]);
  }

  /** The report has no offenders exactly when no row has one. */
  lemma ReportOffendersEmpty(check: RowCheck, rows: seq<Row>)
    requires HasColumns(rows, Columns(check))
    ensures ReportOffenders(check, rows) == []
        <==> forall i :: 0 <= i < |rows| ==> RowOffenders(check, rows[i]) == []
  {
    GatherEmpty(RowOffendersOf(check), rows);
    assert forall i :: 0 <= i < |rows| ==> RowOffendersOf(check)(rows[i]) == RowOffenders(check, rows[i]);
  }

  // ---------------------------------------------------------------------
  // 1.2 Ensure MFA is enabled for all IAM users that have a console password

  const MfaReason := "No MFA on users with password. "

  function MfaResult(credreport: seq<Row>): ControlResult
    requires HasColumns(credreport, Columns(Mfa))
  {
    Enumeration(ReportOffenders(Mfa, credreport), MfaReason, true,
      MfaDescription,
      "1.2")
  }

  method Control1_2(credreport: seq<Row>) returns (r: ControlResult)
    requires HasColumns(credreport, Columns(Mfa))
    ensures r == MfaResult(credreport)
  {
    var result := true;
    var failReason := "";
    var offenders: seq<string> := [];
    for i := 0 to |credreport|
      invariant offenders == ReportOffenders(Mfa, credreport[..i])
      invariant result == (offenders == [])
      invariant failReason == if offenders == [] then "" else MfaReason
    {
      if credreport[i][PasswordEnabled] == "true" {
        if credreport[i][MfaActive] == "false" {
          result := false;
          failReason := MfaReason;
          offenders := offenders + [credreport[i][Arn]];
        }
      }
      GatherStep(RowOffendersOf(Mfa), credreport, i);
    }
    assert credreport[..|credreport|] == credreport;
    r := ControlResult(Bool(result), failReason, offenders, true,
      MfaDescription,
      "1.2");
  }

  /** 1.2's offenders are the ARNs of the password users without MFA. */
  lemma MfaOffendersMeaning(credreport: seq<Row>, x: string)
    requires HasColumns(credreport, Columns(Mfa))
    ensures x in MfaResult(credreport).offenders
        <==> exists i :: 0 <= i < |credreport| && LacksMfa(credreport[i]) && credreport[i][Arn] == x
  {
    ReportOffendersMembers(Mfa, credreport, x);
    forall i | 0 <= i < |credreport|
      ensures x in RowOffenders(Mfa, credreport[i]) <==> LacksMfa(credreport[i]) && credreport[i][Arn] == x
    {
    }
  }

  /** 1.2 fails exactly when some password user has no MFA. */
  lemma MfaFailsMeaning(credreport: seq<Row>)
    requires HasColumns(credreport, Columns(Mfa))
    ensures MfaResult(credreport).result == Bool(false)
        <==> exists i :: 0 <= i < |credreport| && LacksMfa(credreport[i])
  {
    ReportOffendersEmpty(Mfa, credreport);
    forall i | 0 <= i < |credreport|
      ensures RowOffenders(Mfa, credreport[i]) == [] <==> !LacksMfa(credreport[i])
    {
    }
  }

  // ---------------------------------------------------------------------
  // 1.3 Ensure credentials unused for 90 days or greater are disabled

  const UnusedReason := "Credentials unused > 90 days detected. "

  function UnusedResult(now: int, parse: Parser, credreport: seq<Row>): ControlResult
    requires HasColumns(credreport, Columns(Unused(now, parse)))
  {
    Enumeration(ReportOffenders(Unused(now, parse), credreport), UnusedReason, true,
      UnusedDescription, "1.3")
  }

  /** The three `if ...active == "true": try: ... delta.days > 90` blocks
      that 1.3 runs for one row, collecting what they append. */
  method UnusedInRow(now: int, parse: Parser, row: Row) returns (found: seq<string>)
    requires Columns(Unused(now, parse)) <= row.Keys
    ensures found == RowOffenders(Unused(now, parse), row)
  {
    found := [];
    if row[PasswordEnabled] == "true" {
      var t := Stamp(parse, row, PasswordLastUsedDate);
      if t.Some? && Days(now, t.value) > 90 {
        found := found + [row[Arn] + ":password"];
      }
    }
    assert found == StaleOffender(now, parse, row, Password);
    if row[Key1Active] == "true" {
      var t := Stamp(parse, row, Key1LastUsedDate);
      if t.Some? && Days(now, t.value) > 90 {
        found := found + [row[Arn] + ":key1"];
      }
    }
    assert found == StaleOffender(now, parse, row, Password) + StaleOffender(now, parse, row, AccessKey1);
    if row[Key2Active] == "true" {
      var t := Stamp(parse, row, Key2LastUsedDate);
      if t.Some? && Days(now, t.value) > 90 {
        found := found + [row[Arn] + ":key2"];
      }
    }
  }

  method Control1_3(now: int, parse: Parser, credreport: seq<Row>) returns (r: ControlResult)
    requires HasColumns(credreport, Columns(Unused(now, parse)))
    ensures r == UnusedResult(now, parse, credreport)
  {
    var result := true;
    var failReason := "";
    var offenders: seq<string> := [];
    for i := 0 to |credreport|
      invariant offenders == ReportOffenders(Unused(now, parse), credreport[..i])
      invariant result == (offenders == [])
      invariant failReason == if offenders == [] then "" else UnusedReason
    {
      var found := UnusedInRow(now, parse, credreport[i]);
      if found != [] {
        result := false;
        failReason := UnusedReason;
        offenders := offenders + found;
      }
      GatherStep(RowOffendersOf(Unused(now, parse)), credreport, i);
    }
    assert credreport[..|credreport|] == credreport;
    r := ControlResult(Bool(result), failReason, offenders, true,
      UnusedDescription, "1.3");
  }

  /** The offenders of one row under 1.3, credential by credential. */
  lemma UnusedRowMembers(now: int, parse: Parser, row: Row, x: string)
    requires Columns(Unused(now, parse)) <= row.Keys
    ensures x in RowOffenders(Unused(now, parse), row)
        <==> exists c: Credential :: Stale(now, parse, row, c) && x == row[Arn] + UnusedSuffix(c)
  {
    if x in RowOffenders(Unused(now, parse), row) {
      if x in StaleOffender(now, parse, row, Password) {
        assert Stale(now, parse, row, Password);
      } else if x in StaleOffender(now, parse, row, AccessKey1) {
        assert Stale(now, parse, row, AccessKey1);
      } else {
        assert Stale(now, parse, row, AccessKey2);
      }
    }
    if exists c: Credential :: Stale(now, parse, row, c) && x == row[Arn] + UnusedSuffix(c) {
      var c: Credential :| Stale(now, parse, row, c) && x == row[Arn] + UnusedSuffix(c);
      assert x in StaleOffender(now, parse, row, c);
    }
  }

  /** 1.3's test for one credential, in seconds: enabled, and its last use
      parses to an instant at least 91 whole days (91 * 86400 seconds) before
      `now`. A credential used 90 days and 23:59:59 ago passes, one used 91
      days ago fails, and one without a parsable timestamp always passes. */
  lemma StaleMeaning(now: int, parse: Parser, row: Row, c: Credential)
    requires EnabledColumn(c) in row
    ensures Stale(now, parse, row, c)
        <==> row[EnabledColumn(c)] == "true"
             && Stamp(parse, row, LastUsedColumn(c)).Some?
             && now - Stamp(parse, row, LastUsedColumn(c)).value >= 91 * SecondsPerDay
  {
    var t := Stamp(parse, row, LastUsedColumn(c));
    if t.Some? { DaysAbove(now, t.value, 90); }
  }

  /** 1.3's offenders are exactly the ARN-and-suffix of every stale credential,
      over all rows. */
  lemma UnusedMeaning(now: int, parse: Parser, credreport: seq<Row>, x: string)
    requires HasColumns(credreport, Columns(Unused(now, parse)))
    ensures x in UnusedResult(now, parse, credreport).offenders
        <==> exists i, c: Credential :: 0 <= i < |credreport| && Stale(now, parse, credreport[i], c)
               && x == credreport[i][Arn] + UnusedSuffix(c)
  {
    var check := Unused(now, parse);
    ReportOffendersMembers(check, credreport, x);
    forall i | 0 <= i < |credreport|
      ensures x in RowOffenders(check, credreport[i])
          <==> exists c: Credential :: Stale(now, parse, credreport[i], c)
                 && x == credreport[i][Arn] + UnusedSuffix(c)
    {
      UnusedRowMembers(now, parse, credreport[i], x);
    }
  }

  /** On a report produced by IAM, which has no 'password_last_used_date'
      column, 1.3 reports only access keys: a password is never flagged,
      whatever its age. */
  lemma UnusedNeverFlagsPasswords(now: int, parse: Parser, credreport: seq<Row>, x: string)
    requires HasColumns(credreport, Columns(Unused(now, parse)))
    requires forall i :: 0 <= i < |credreport| ==> PasswordLastUsedDate !in credreport[i]
    requires x in UnusedResult(now, parse, credreport).offenders
    ensures exists i, c: Credential :: 0 <= i < |credreport| && c != Password
              && x == credreport[i][Arn] + UnusedSuffix(c)
  {
    UnusedMeaning(now, parse, credreport, x);
    var i, c: Credential :| 0 <= i < |credreport| && Stale(now, parse, credreport[i], c)
               && x == credreport[i][Arn] + UnusedSuffix(c);
    assert c != Password;
  }

  // ---------------------------------------------------------------------
  // 1.4 Ensure access keys are rotated every 90 days or less

  const RotationReason := "Key rotation >90 days or not used since rotation"

  function RotationResult(now: int, parse: Parser, credreport: seq<Row>): ControlResult
    requires HasColumns(credreport, Columns(Rotation(now, parse)))
  {
    Enumeration(ReportOffenders(Rotation(now, parse), credreport), RotationReason, true,
      RotationDescription, "1.4")
  }

  /** The two `try` blocks 1.4 runs for one active key of one row. */
  method RotationOfKey(now: int, parse: Parser, row: Row, c: Credential) returns (found: seq<string>)
    requires {EnabledColumn(c), Arn} <= row.Keys
    ensures found == RotationOffenders(now, parse, row, c)
  {
    found := [];
    if row[EnabledColumn(c)] == "true" {
      var rotated := Stamp(parse, row, RotatedColumn(c));
      if rotated.Some? && Days(now, rotated.value) > 90 {
        found := found + [row[Arn] + ":unrotated " + KeyName(c)];
      }
      var used := Stamp(parse, row, LastUsedColumn(c));
      if used.Some? && rotated.Some? && Days(used.value, rotated.value) > 1 {
        found := found + [row[Arn] + ":unused " + KeyName(c)];
      }
    }
  }

  /** 1.4's work on one row: the first key's blocks, then the second's. */
  method RotationInRow(now: int, parse: Parser, row: Row) returns (found: seq<string>)
    requires Columns(Rotation(now, parse)) <= row.Keys
    ensures found == RowOffenders(Rotation(now, parse), row)
  {
    var key1 := RotationOfKey(now, parse, row, AccessKey1);
    var key2 := RotationOfKey(now, parse, row, AccessKey2);
    found := key1 + key2;
  }

  method Control1_4(now: int, parse: Parser, credreport: seq<Row>) returns (r: ControlResult)
    requires HasColumns(credreport, Columns(Rotation(now, parse)))
    ensures r == RotationResult(now, parse, credreport)
  {
    var result := true;
    var failReason := "";
    var offenders: seq<string> := [];
    for i := 0 to |credreport|
      invariant offenders == ReportOffenders(Rotation(now, parse), credreport[..i])
      invariant result == (offenders == [])
      invariant failReason == if offenders == [] then "" else RotationReason
    {
      var found := RotationInRow(now, parse, credreport[i]);
      if found != [] {
        result := false;
        failReason := RotationReason;
        offenders := offenders + found;
      }
      GatherStep(RowOffendersOf(Rotation(now, parse)), credreport, i);
    }
    assert credreport[..|credreport|] == credreport;
    r := ControlResult(Bool(result), failReason, offenders, true,
      RotationDescription, "1.4");
  }

  /** The offender texts 1.4 gives one key of one row. */
  predicate RotationFlag(now: int, parse: Parser, row: Row, c: Credential, x: string)
    requires {EnabledColumn(c), Arn} <= row.Keys
  {
    (Unrotated(now, parse, row, c) && x == row[Arn] + ":unrotated " + KeyName(c))
    || (UsedLongAfterRotation(parse, row, c) && x == row[Arn] + ":unused " + KeyName(c))
  }

  lemma RotationRowMembers(now: int, parse: Parser, row: Row, x: string)
    requires Columns(Rotation(now, parse)) <= row.Keys
    ensures x in RowOffenders(Rotation(now, parse), row)
        <==> exists c: Credential :: c != Password && RotationFlag(now, parse, row, c, x)
  {
    var key1 := RotationOffenders(now, parse, row, AccessKey1);
    var key2 := RotationOffenders(now, parse, row, AccessKey2);
    assert RowOffenders(Rotation(now, parse), row) == key1 + key2;
    assert x in key1 <==> RotationFlag(now, parse, row, AccessKey1, x);
    assert x in key2 <==> RotationFlag(now, parse, row, AccessKey2, x);
    if exists c: Credential :: c != Password && RotationFlag(now, parse, row, c, x) {
      var c: Credential :| c != Password && RotationFlag(now, parse, row, c, x);
      assert c == AccessKey1 || c == AccessKey2;
    }
  }

  /** 1.4's offenders: an active key rotated at least 91 whole days before
      `now` ("unrotated"), or used more than one whole day (at least 2 * 86400
      seconds) after its rotation ("unused"). Keys without parsable
      timestamps are never reported. */
  lemma RotationMeaning(now: int, parse: Parser, credreport: seq<Row>, x: string)
    requires HasColumns(credreport, Columns(Rotation(now, parse)))
    ensures x in RotationResult(now, parse, credreport).offenders
        <==> exists i, c: Credential :: 0 <= i < |credreport| && c != Password
               && ((Unrotated(now, parse, credreport[i], c)
                    && x == credreport[i][Arn] + ":unrotated " + KeyName(c))
                || (UsedLongAfterRotation(parse, credreport[i], c)
                    && x == credreport[i][Arn] + ":unused " + KeyName(c)))
  {
    var check := Rotation(now, parse);
    ReportOffendersMembers(check, credreport, x);
    forall i | 0 <= i < |credreport|
      ensures x in RowOffenders(check, credreport[i])
          <==> exists c: Credential :: c != Password && RotationFlag(now, parse, credreport[i], c, x)
    {
      RotationRowMembers(now, parse, credreport[i], x);
    }
  }

  lemma RotationThresholds(now: int, parse: Parser, row: Row, c: Credential)
    requires EnabledColumn(c) in row
    ensures Unrotated(now, parse, row, c)
        <==> row[EnabledColumn(c)] == "true" && Stamp(parse, row, RotatedColumn(c)).Some?
             && now - Stamp(parse, row, RotatedColumn(c)).value >= 91 * SecondsPerDay
    ensures UsedLongAfterRotation(parse, row, c)
        <==> row[EnabledColumn(c)] == "true" && Stamp(parse, row, LastUsedColumn(c)).Some?
             && Stamp(parse, row, RotatedColumn(c)).Some?
             && Stamp(parse, row, LastUsedColumn(c)).value - Stamp(parse, row, RotatedColumn(c)).value
                >= 2 * SecondsPerDay
  {
    var rotated := Stamp(parse, row, RotatedColumn(c));
    var used := Stamp(parse, row, LastUsedColumn(c));
    if rotated.Some? {
      DaysAbove(now, rotated.value, 90);
      if used.Some? { DaysAbove(used.value, rotated.value, 1); }
    }
  }

  // ---------------------------------------------------------------------
  // 1.12 Ensure no root account access key exists

  /** The root-row columns 1.12 reads; the second only when the first key is
      not active, since `or` stops at a true left operand. */
  predicate RootKeyColumns(credreport: seq<Row>)
  {
    |credreport| > 0 && Key1Active in credreport[0]
    && (credreport[0][Key1Active] != "true" ==> Key2Active in credreport[0])
  }

  function RootKeyExists(credreport: seq<Row>): (r: ControlResult)
    requires RootKeyColumns(credreport)
    ensures r.result == Bool(false)
        <==> exists k :: k in {Key1Active, Key2Active}
               && k in credreport[0] && credreport[0][k] == "true"
    ensures r.result.Bool? && r.offenders == [] && (r.result.b <==> r.failReason == "")
    ensures r.controlId == "1.12" && r.scoredControl
  {
    var root := credreport[0];
    var active := root[Key1Active] == "true" || root[Key2Active] == "true";
    ControlResult(Bool(!active), if active then RootKeyReason else "", [], true,
                  RootKeyDescription, "1.12")
  }

  // ---------------------------------------------------------------------
  // get_cred_report: wait for the credential report

  /** What `get_cred_report` returns: the failure text, or the parsed rows. */
  datatype CredentialReport = Failed(status: string) | Report(rows: seq<Row>)

  const Complete := "COMPLETE"
  const NoReport := "Fail: rootUse - no CredentialReport available."

  /** `states(k)` is the 'State' of the k-th `generate_credential_report`
      response and `content` the rows `get_credential_report` yields once it
      is complete. `calls` counts `generate_credential_report` calls. */
  method GetCredReport(states: nat -> string, content: seq<Row>)
    returns (report: CredentialReport, calls: nat)
    ensures 1 <= calls <= 11
    ensures report.Failed? <==> forall k :: 0 <= k < 11 ==> states(k) != Complete
    ensures report.Failed? ==> report.status == NoReport && calls == 11
    ensures report.Report? ==> report.rows == content && states(calls - 1) == Complete
                               && forall k :: 0 <= k < calls - 1 ==> states(k) != Complete
  {
    var x := 0;
    var status := "";
    calls := 1;
    while states(calls - 1) != Complete
      invariant 1 <= calls <= 11 && x == calls - 1
      invariant forall k :: 0 <= k < calls - 1 ==> states(k) != Complete
      invariant status == ""
      decreases 11 - calls
    {
      x := x + 1;
      if x > 10 {
        status := NoReport;
        break;
      }
      calls := calls + 1;
    }
    assert status == "" || status == NoReport;
    assert NoReport == "Fail" + NoReport[4..];
    ContainsPrefix("Fail", NoReport[4..]);
    if Contains(status, "Fail") {
      report := Failed(status);
    } else {
      report := Report(content);
    }
  }
}
