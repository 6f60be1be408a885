/** The parking session of the operator adaptor: an optional state, set and cleared in place. */
module Session {
  import opened Wrappers

  datatype Rate = Rate(kind: string, amount: real, currency: string)

  datatype SessionState = SessionState(sessionId: string, zoneId: string, startTime: int, rate: Rate, active: bool)

  predicate HasActive(st: Option<SessionState>) {
    st.Some? && st.value.active
  }

  class Session {
    var state: Option<SessionState>

    constructor ()
      ensures state == None
    {
      state := None;
    }

    function IsActive(): bool
      reads this
    {
      HasActive(state)
    }

    method Start(sessionId: string, zoneId: string, startTime: int, rate: Rate)
      modifies this
      ensures state == Some(SessionState(sessionId, zoneId, startTime, rate, true))
    {
      state := Some(SessionState(sessionId, zoneId, startTime, rate, true));
    }

    method Stop() returns (sessionId: Option<string>)
      modifies this
      ensures state == None
      ensures sessionId == if old(IsActive()) then Some(old(state).value.sessionId) else None
    {
      sessionId := if HasActive(state) then Some(state.value.sessionId) else None;
      state := None;
    }

    function Status(): Option<SessionState>
      reads this
    {
      state
    }

    function CurrentRate(): Option<Rate>
      reads this
    {
      if state.Some? then Some(state.value.rate) else None
    }
  }
}
