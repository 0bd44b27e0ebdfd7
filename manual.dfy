/** The controls the source does not check through the API: they return a
    constant record asking for manual verification. */
module Manual {
  import opened Results

  /** The texts the controls report. */
  const SecurityQuestionsDescription := "Ensure security questions are registered in the AWS account, please verify manually"
  const DetailedBillingDescription := "Enable detailed billing, please verify manually"
  const IamRolesReason := "No IAM Master or IAM Manager role created"
  const IamRolesDescription := "Ensure IAM Master and IAM Manager roles are active. Control under review/investigation"
  const ContactDetailsDescription := "Maintain current contact details, please verify manually"
  const SecurityContactDescription := "Ensure security contact information is registered, please verify manually"
  const SnsSubscribersDescription := "Ensure appropriate subscribers to each SNS topic, please verify manually"

  const ManualReason := "Control not implemented using API, please verify manually"

  // 1.15 (not scored)
  function SecurityQuestions(): (r: ControlResult)
    ensures r.result == Text("Manual") && r.failReason == ManualReason && r.offenders == []
    ensures !r.scoredControl && r.controlId == "1.15"
    ensures r.description == SecurityQuestionsDescription
  {
    ControlResult(Text("Manual"), ManualReason, [], false,
      SecurityQuestionsDescription, "1.15")
  }

  // 1.17
  function DetailedBilling(): (r: ControlResult)
    ensures r.result == Text("Manual") && r.failReason == ManualReason && r.offenders == []
    ensures r.scoredControl && r.controlId == "1.17"
    ensures r.description == DetailedBillingDescription
  {
    ControlResult(Text("Manual"), ManualReason, [], true,
      DetailedBillingDescription, "1.17")
  }

  // 1.18: the text "True", not the boolean, with a failure reason.
  function IamMasterManagerRoles(): (r: ControlResult)
    ensures r.result == Text("True") && Str(r.result) == Str(Bool(true))
    ensures r.failReason == IamRolesReason && r.offenders == []
    ensures r.scoredControl && r.controlId == "1.18"
    ensures r.description == IamRolesDescription
  {
    ControlResult(Text("True"), IamRolesReason, [], true,
      IamRolesDescription, "1.18")
  }

  // 1.19
  function ContactDetails(): (r: ControlResult)
    ensures r.result == Text("Manual") && r.failReason == ManualReason && r.offenders == []
    ensures r.scoredControl && r.controlId == "1.19"
    ensures r.description == ContactDetailsDescription
  {
    ControlResult(Text("Manual"), ManualReason, [], true,
      ContactDetailsDescription, "1.19")
  }

  // 1.20
  function SecurityContact(): (r: ControlResult)
    ensures r.result == Text("Manual") && r.failReason == ManualReason && r.offenders == []
    ensures r.scoredControl && r.controlId == "1.20"
    ensures r.description == SecurityContactDescription
  {
    ControlResult(Text("Manual"), ManualReason, [], true,
      SecurityContactDescription, "1.20")
  }

  // 3.15 (not scored): the boolean True, with the manual reason.
  function SnsSubscribers(): (r: ControlResult)
    ensures r.result == Bool(true) && r.failReason == ManualReason && r.offenders == []
    ensures !r.scoredControl && r.controlId == "3.15"
    ensures r.description == SnsSubscribersDescription
  {
    ControlResult(Bool(true), ManualReason, [], false,
      SnsSubscribersDescription, "3.15")
  }
}
