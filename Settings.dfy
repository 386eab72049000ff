/**
 * QuickGet's static helpers for reading its configuration: the blank test
 * `emptyString`, the precedence rule `getSetting` (system property, then
 * environment variable, then default) and the port parser `parsePort`.
 * The system properties and the environment are not read here: their values
 * for the requested keys are parameters, `None` for an unset key.
 */
module Settings {
  import opened Wrappers
  import opened JavaString
  import opened JavaInteger

  /** `emptyString`: `null`, or nothing left after trimming. */
  predicate EmptyString(s: Option<string>) {
    s.None? || |Trim(s.value)| == 0
  }

  /** A string is blank exactly when it is `null` or made only of code units up to U+0020. */
  lemma EmptyStringIff(s: Option<string>)
    ensures EmptyString(s) <==> s.None? || AllTrimmable(s.value)
  {
    if s.Some? {
      TrimEmptyIff(s.value);
    }
  }

  /**
   * `getSetting(prop, env, default)`, given the value of the system property
   * `prop` and of the environment variable `env`: the first non-blank of the
   * two, trimmed, or else the default, untrimmed.
   */
  function GetSetting(property: Option<string>, environment: Option<string>, default: string): string {
    if !EmptyString(property) then Trim(property.value)
    else if !EmptyString(environment) then Trim(environment.value)
    else default
  }

  /**
   * The system property wins over the environment variable, which wins over
   * the default: a non-blank property decides the result whatever the other
   * two are, a blank one is as good as unset, and a non-blank environment
   * variable then decides it whatever the default is.
   */
  lemma GetSettingPrecedence(property: Option<string>, environment: Option<string>, default: string,
                             otherEnvironment: Option<string>, otherDefault: string)
    ensures !EmptyString(property) ==>
              GetSetting(property, environment, default) == GetSetting(property, otherEnvironment, otherDefault)
              == Trim(property.value)
    ensures EmptyString(property) ==>
              GetSetting(property, environment, default) == GetSetting(None, environment, default)
    ensures EmptyString(property) && !EmptyString(environment) ==>
              GetSetting(property, environment, default) == GetSetting(property, environment, otherDefault)
              == Trim(environment.value)
    ensures EmptyString(property) && EmptyString(environment) ==> GetSetting(property, environment, default) == default
  {
  }

  /** A value taken from the property or the environment is trimmed and never blank. */
  lemma GetSettingUsedIsTrimmed(property: Option<string>, environment: Option<string>, default: string)
    requires !EmptyString(property) || !EmptyString(environment)
    ensures var r := GetSetting(property, environment, default);
            !EmptyString(Some(r)) && Trim(r) == r
  {
    var used := if !EmptyString(property) then property.value else environment.value;
    assert GetSetting(property, environment, default) == Trim(used);
    TrimIdempotent(used);
  }

  /**
   * `parsePort`: the integer itself when `Integer.parseInt` accepts the text
   * and it lies in 1..65536; -2 when it is an integer outside that range;
   * -1 when it is not an integer at all. The text is not trimmed.
   */
  function ParsePort(text: string): (port: int)
    ensures port == -1 || port == -2 || 1 <= port <= 65536
  {
    match ParseInt(text)
    case None => -1
    case Some(port) => if port < 1 || port > 65536 then -2 else port
  }

  /** The three outcomes of `parsePort`, in both directions. */
  lemma ParsePortOutcomes(text: string)
    ensures ParsePort(text) == -1 <==> ParseInt(text).None?
    ensures ParsePort(text) == -2 <==> ParseInt(text).Some? && !(1 <= ParseInt(text).value <= 65536)
    ensures ParsePort(text) >= 1 <==> ParseInt(text).Some? && 1 <= ParseInt(text).value <= 65536
    ensures ParsePort(text) >= 1 ==> ParsePort(text) == ParseInt(text).value
    ensures ParsePort(text) in {-1, -2} || 1 <= ParsePort(text) <= 65536
  {
  }

  /** Every port 1..65536 written in decimal is read back as itself, 65536 included. */
  lemma ParsePortDecimal(port: nat)
    requires 1 <= port <= 65536
    ensures ParsePort(Decimal(port)) == port
  {
    ParseIntDecimal(port);
  }

  /** Surrounding blanks make the text unparsable: `parsePort` does not trim. */
  lemma ParsePortDoesNotTrim(text: string)
    ensures ParsePort(" " + text) == -1
  {
    ParseIntRejectsNonDigit(" " + text, 0);
  }
}
