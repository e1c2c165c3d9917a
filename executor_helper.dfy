/**
 * The placeholder substitution applied to an executor command before it is
 * sent to an agent: the quoted location, the inject id and the agent id.
 */
module ExecutorHelper {
  import opened Wrappers
  import opened Text

  /** `PLATFORM_TYPE`; the platforms without a location path are kept by name. */
  datatype Platform = Windows | Linux | MacOS | OtherPlatform(name: string)

  datatype ExecutorError = IllegalArgument(message: string)

  const WindowsLocationPath := "$PWD.Path"
  const UnixLocationPath := "$(pwd)"
  const QuotedLocation := "\"#{location}\""
  const InjectPlaceholder := "#{inject}"
  const AgentPlaceholder := "#{agent}"

  /** The working-directory expression of a platform's shell; unsupported platforms throw. */
  function LocationPath(platform: Platform): (r: Result<string, ExecutorError>)
    ensures r.Ok? <==> !platform.OtherPlatform?
  {
    match platform
    case Windows => Ok(WindowsLocationPath)
    case Linux => Ok(UnixLocationPath)
    case MacOS => Ok(UnixLocationPath)
    case OtherPlatform(name) => Err(IllegalArgument("Unsupported platform type: " + name))
  }

  /**
   * `replaceArgs`: throws on a missing argument or an unsupported platform;
   * otherwise replaces, one after the other, every quoted location, every
   * inject placeholder and every agent placeholder.
   */
  function ReplaceArgs(platform: Option<Platform>, command: Option<string>, injectId: Option<string>, agentId: Option<string>)
    : (r: Result<string, ExecutorError>)
    ensures platform.None? || command.None? || injectId.None? || agentId.None? ==>
      r == Err(IllegalArgument("Platform type, command, injectId, and agentId must not be null."))
    ensures r.Ok? <==> platform.Some? && command.Some? && injectId.Some? && agentId.Some? && !platform.value.OtherPlatform?
  {
    if platform.None? || command.None? || injectId.None? || agentId.None? then
      Err(IllegalArgument("Platform type, command, injectId, and agentId must not be null."))
    else
      match LocationPath(platform.value)
      case Err(e) => Err(e)
      case Ok(location) =>
        Ok(ReplaceAll(ReplaceAll(ReplaceAll(command.value, QuotedLocation, location), InjectPlaceholder, injectId.value),
                      AgentPlaceholder, agentId.value))
  }

  /** A command without any placeholder comes back unchanged. */
  lemma {:induction false} NoPlaceholders(platform: Platform, command: string, injectId: string, agentId: string)
    requires !platform.OtherPlatform?
    requires !Contains(command, QuotedLocation) && !Contains(command, InjectPlaceholder) && !Contains(command, AgentPlaceholder)
    ensures ReplaceArgs(Some(platform), Some(command), Some(injectId), Some(agentId)) == Ok(command)
  {
    ReplaceAllAbsent(command, QuotedLocation, LocationPath(platform).value);
    ReplaceAllAbsent(command, InjectPlaceholder, injectId);
    ReplaceAllAbsent(command, AgentPlaceholder, agentId);
  }

  /** Replacing in the target itself gives the replacement. */
  lemma {:induction false} ReplaceWhole(target: string, replacement: string)
    requires |target| > 0
    ensures ReplaceAll(target, target, replacement) == replacement
  {
    assert target[..|target|] == target;
    assert target[|target|..] == "";
    assert replacement + "" == replacement;
  }

  /** A text without `#` holds no placeholder. */
  lemma {:induction false} NoHashNoPlaceholder(s: string, placeholder: string)
    requires |placeholder| > 0 && placeholder[0] == '#' && '#' !in s
    ensures !Contains(s, placeholder)
  {
    forall i | 0 <= i <= |s| - |placeholder|
      ensures !OccursAt(s, placeholder, i)
    {
      assert s[i] != placeholder[0];
      assert s[i..i + |placeholder|][0] == s[i];
    }
  }

  /** The quoted location becomes the shell's path, and its quotes go with it. */
  lemma {:induction false} QuotedLocationReplaced(platform: Platform, injectId: string, agentId: string)
    requires !platform.OtherPlatform?
    ensures ReplaceArgs(Some(platform), Some(QuotedLocation), Some(injectId), Some(agentId)) == Ok(LocationPath(platform).value)
  {
    var location := LocationPath(platform).value;
    ReplaceWhole(QuotedLocation, location);
    NoHashNoPlaceholder(location, InjectPlaceholder);
    NoHashNoPlaceholder(location, AgentPlaceholder);
    ReplaceAllAbsent(location, InjectPlaceholder, injectId);
    ReplaceAllAbsent(location, AgentPlaceholder, agentId);
  }

  /** A bare location placeholder, without the quotes, is left as it is. */
  lemma {:induction false} BareLocationKept(platform: Platform, injectId: string, agentId: string)
    requires !platform.OtherPlatform?
    ensures ReplaceArgs(Some(platform), Some("#{location}"), Some(injectId), Some(agentId)) == Ok("#{location}")
  {
    var c := "#{location}";
    assert !Contains(c, QuotedLocation);
    assert !Contains(c, InjectPlaceholder) by {
      forall i | 0 <= i <= |c| - |InjectPlaceholder|
        ensures !OccursAt(c, InjectPlaceholder, i)
      {
        assert c[i + 2] != InjectPlaceholder[2];
      }
    }
    assert !Contains(c, AgentPlaceholder) by {
      forall i | 0 <= i <= |c| - |AgentPlaceholder|
        ensures !OccursAt(c, AgentPlaceholder, i)
      {
        assert c[i + 3] != AgentPlaceholder[3];
      }
    }
    NoPlaceholders(platform, c, injectId, agentId);
  }

  /** The replacements are sequential: an agent placeholder brought in by the inject id is rewritten too. */
  lemma {:induction false} SequentialReplacement(platform: Platform, agentId: string)
    requires !platform.OtherPlatform?
    ensures ReplaceArgs(Some(platform), Some(InjectPlaceholder), Some(AgentPlaceholder), Some(agentId)) == Ok(agentId)
  {
    assert ReplaceAll(InjectPlaceholder, QuotedLocation, LocationPath(platform).value) == InjectPlaceholder;
    ReplaceWhole(InjectPlaceholder, AgentPlaceholder);
    ReplaceWhole(AgentPlaceholder, agentId);
  }
}
