/** MicroProfileExecutionSettings: the client's execution-mode setting. */
module ExecutionSettings {
  import opened Wrappers
  import opened ExecutionModes

  class MicroProfileExecutionSettings {
    /** The raw mode string as sent by the client; null when absent. */
    var mode: Option<string>

    /** A new settings object holds SAFE's name in lower case. */
    constructor ()
      ensures mode == Some("safe")
      ensures ExecutionMode() == SAFE
    {
      mode := Some("safe");
      new;
      NameRoundTrip(SAFE);
    }

    /** getExecutionMode: the mode string decoded by ExecutionMode.forValue. */
    function ExecutionMode(): (m: ExecutionModes.ExecutionMode)
      reads this
      ensures mode.None? ==> m == SAFE
    {
      ForName(mode)
    }

    method SetMode(newMode: Option<string>)
      modifies this
      ensures mode == newMode
    {
      mode := newMode;
    }

    /** equals: same class and Objects.equals on the mode strings. */
    predicate Equals(other: MicroProfileExecutionSettings?)
      reads this, other
    {
      other != null && mode == other.mode
    }

    /** update: nothing happens for null or an equal object; otherwise the
      * mode is copied and the call answers true. */
    method Update(newExecution: MicroProfileExecutionSettings?) returns (changed: bool)
      modifies this
      ensures changed <==> newExecution != null && old(mode) != newExecution.mode
      ensures newExecution != null ==> mode == newExecution.mode
      ensures newExecution == null ==> mode == old(mode)
    {
      if newExecution == null || Equals(newExecution) {
        return false;
      }
      SetMode(newExecution.mode);
      return true;
    }
  }

  /** Whatever mode string a settings object holds, it reads as FULL only
    * when the string is "full" ignoring case. */
  lemma ExecutionModeIsFullIff(s: MicroProfileExecutionSettings)
    ensures s.ExecutionMode() == FULL <==> s.mode.Some? && JavaStrings.EqualsIgnoreCase("full", s.mode.value)
  {
    ForNameIsFullIff(s.mode);
  }
}
