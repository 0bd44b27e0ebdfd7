/** Controls 1.5 to 1.11, evaluated from the account password policy. Each
    is account-wide: it never lists offenders, and it fails with one fixed
    reason. */
module PasswordPolicy {
  import opened Results

  /** The texts the controls report. */
  const UppercaseDescription := "Ensure IAM password policy requires at least one uppercase letter"
  const LowercaseDescription := "Ensure IAM password policy requires at least one lowercase letter"
  const SymbolDescription := "Ensure IAM password policy requires at least one symbol"
  const NumberDescription := "Ensure IAM password policy requires at least one number"
  const LengthDescription := "Ensure IAM password policy requires minimum length of 14 or greater"
  const ReuseDescription := "Ensure IAM password policy prevents password reuse"
  const ExpireDescription := "Ensure IAM password policy expires passwords within 90 days or less"

  /** The 'PasswordPolicy' part of `get_account_password_policy`. The two
      optional entries are absent from the response when the account does
      not set them. */
  datatype Policy = Policy(
    requireUppercaseCharacters: bool,
    requireLowercaseCharacters: bool,
    requireSymbols: bool,
    requireNumbers: bool,
    minimumPasswordLength: int,
    passwordReusePrevention: Option<int>,
    expirePasswords: bool,
    maxPasswordAge: Option<int>)

  /** The record of an account-wide check that fails with `reason` when `failed`. */
  function AccountCheck(failed: bool, reason: string, description: string, id: string): (r: ControlResult)
    ensures r.result == Bool(!failed) && r.offenders == [] && r.scoredControl
    ensures r.failReason == (if failed then reason else "")
    ensures r.description == description && r.controlId == id
  {
    ControlResult(Bool(!failed), if failed then reason else "", [], true, description, id)
  }

  /** Reason of 1.5 and, as the source has it, of 1.6 too. */
  const UppercaseReason := "Password policy does not require at least one uppercase letter"
  const SymbolReason := "Password policy does not require at least one symbol"
  const NumberReason := "Password policy does not require at least one number"
  const LengthReason := "Password policy does not require at least 14 characters"
  const ReuseReason := "Password policy does not prevent reusing last 24 passwords"
  const ExpireReason := "Password policy does not expire passwords after 90 days or less"

  // 1.5
  function Uppercase(p: Policy): (r: ControlResult)
    ensures r.result == Bool(false) <==> !p.requireUppercaseCharacters
    ensures r.controlId == "1.5" && r.offenders == []
    ensures r.failReason == (if r.result == Bool(false) then UppercaseReason else "")
    ensures r.result.Bool? && r.scoredControl && r.description == UppercaseDescription
  {
    AccountCheck(p.requireUppercaseCharacters == false, UppercaseReason,
            UppercaseDescription, "1.5")
  }

  // 1.6: the source reuses 1.5's reason text ("uppercase") here.
  function Lowercase(p: Policy): (r: ControlResult)
    ensures r.result == Bool(false) <==> !p.requireLowercaseCharacters
    ensures r.controlId == "1.6" && r.offenders == []
    ensures r.failReason == (if r.result == Bool(false) then UppercaseReason else "")
    ensures r.result.Bool? && r.scoredControl && r.description == LowercaseDescription
  {
    AccountCheck(p.requireLowercaseCharacters == false, UppercaseReason,
            LowercaseDescription, "1.6")
  }

  // 1.7
  function Symbol(p: Policy): (r: ControlResult)
    ensures r.result == Bool(false) <==> !p.requireSymbols
    ensures r.controlId == "1.7" && r.offenders == []
    ensures r.failReason == (if r.result == Bool(false) then SymbolReason else "")
    ensures r.result.Bool? && r.scoredControl && r.description == SymbolDescription
  {
    AccountCheck(p.requireSymbols == false, SymbolReason,
            SymbolDescription, "1.7")
  }

  // 1.8
  function Number(p: Policy): (r: ControlResult)
    ensures r.result == Bool(false) <==> !p.requireNumbers
    ensures r.controlId == "1.8" && r.offenders == []
    ensures r.failReason == (if r.result == Bool(false) then NumberReason else "")
    ensures r.result.Bool? && r.scoredControl && r.description == NumberDescription
  {
    AccountCheck(p.requireNumbers == false, NumberReason,
            NumberDescription, "1.8")
  }

  // 1.9
  function Length(p: Policy): (r: ControlResult)
    ensures r.result == Bool(false) <==> p.minimumPasswordLength < 14
    ensures r.controlId == "1.9" && r.offenders == []
    ensures r.failReason == (if r.result == Bool(false) then LengthReason else "")
    ensures r.result.Bool? && r.scoredControl && r.description == LengthDescription
  {
    AccountCheck(p.minimumPasswordLength < 14, LengthReason,
            LengthDescription, "1.9")
  }

  // 1.10: an absent entry raises inside the `try` and fails the control.
  function Reuse(p: Policy): (r: ControlResult)
    ensures r.result == Bool(true) <==> p.passwordReusePrevention == Some(24)
    ensures r.controlId == "1.10" && r.offenders == []
    ensures r.failReason == (if r.result == Bool(false) then ReuseReason else "")
    ensures r.result.Bool? && r.scoredControl && r.description == ReuseDescription
  {
    var failed :=
      match p.passwordReusePrevention
      case Some(n) => n != 24
      case None => true;
    AccountCheck(failed, ReuseReason, ReuseDescription, "1.10")
  }

  /** 1.11 reads 'MaxPasswordAge' without a `try` once 'ExpirePasswords' is True. */
  predicate ExpiryReadable(p: Policy)
  {
    p.expirePasswords ==> p.maxPasswordAge.Some?
  }

  // 1.11: the test `0 < age > 90` chains to `0 < age and age > 90`.
  function Expire(p: Policy): (r: ControlResult)
    requires ExpiryReadable(p)
    ensures !p.expirePasswords ==> r.result == Bool(false)
    ensures p.expirePasswords ==> (r.result == Bool(false) <==> p.maxPasswordAge.value > 90)
    ensures r.controlId == "1.11" && r.offenders == []
    ensures r.failReason == (if r.result == Bool(false) then ExpireReason else "")
    ensures r.result.Bool? && r.scoredControl && r.description == ExpireDescription
  {
    var failed :=
      if p.expirePasswords then 0 < p.maxPasswordAge.value && p.maxPasswordAge.value > 90
      else true;
    AccountCheck(failed, ExpireReason,
            ExpireDescription, "1.11")
  }
}
