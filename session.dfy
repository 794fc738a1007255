/**
 * The Python evaluation server's session table: a dictionary from session id
 * to the globals dictionary the session's code runs against.
 */
module Session {
  import opened Wrappers

  /** A Python value bound in a session's globals. */
  datatype PyValue = PyInt(n: int) | PyStr(s: string) | PyOther(repr: string)

  /** A session's `globals` dictionary. */
  type Globals = map<string, PyValue>

  /**
   * What `eval_on_session` ends with: the session's globals after the run, a
   * `RuntimeError` object returned rather than raised, or the exception the
   * code raised, which propagates out of the call.
   */
  datatype EvalOutcome = GlobalsValue(globals: Globals) | RuntimeErrorValue(message: string) | Raised(exception: string)

  /**
   * What running a piece of source text leaves: the updated dictionary, or
   * the dictionary as far as the code got before it raised, and the exception.
   */
  datatype ExecResult = Completed(globals: Globals) | RaisedAfter(globals: Globals, exception: string)

  /** Running a piece of source text against a globals dictionary. */
  type Exec = (string, Globals) -> ExecResult

  class SessionsManager {
    /** The session table, indexed by session id. */
    var sessions: map<string, Globals>

    /** A new manager holds no sessions. */
    constructor()
      ensures sessions == map[]
    {
      sessions := map[];
    }

    /** The session stored under `sid`, or `None`; the table is left alone. */
    method GetSession(sid: string) returns (r: Option<Globals>)
      ensures sid in sessions <==> r.Some?
      ensures r.Some? ==> r.value == sessions[sid]
    {
      if sid in sessions {
        r := Some(sessions[sid]);
      } else {
        r := None;
      }
    }

    /**
     * Installs empty globals under `sid` (the freshly generated id) and returns
     * it; an existing session with that id is overwritten.
     */
    method NewSession(sid: string) returns (r: string)
      modifies this
      ensures r == sid
      ensures sessions == old(sessions)[sid := map[]]
    {
      sessions := sessions[sid := map[]];
      r := sid;
    }

    /**
     * Removes the session `sid` and returns its id; an unknown id gives ""
     * and changes nothing.
     */
    method DeleteSession(sid: string) returns (r: string)
      modifies this
      ensures sid !in old(sessions) ==> r == "" && sessions == old(sessions)
      ensures sid in old(sessions) ==> r == sid && sessions == old(sessions) - {sid}
      ensures sid !in sessions
    {
      if sid !in sessions {
        r := "";
        return;
      }
      sessions := sessions - {sid};
      r := sid;
    }

    /**
     * Runs `src` against the globals of session `sid` and returns them; the
     * other sessions are untouched. An unknown id gives a `RuntimeError` value
     * and changes nothing. When the code raises, the exception propagates and
     * the session keeps the globals as far as the code updated them.
     */
    method EvalOnSession(sid: string, src: string, exec: Exec) returns (r: EvalOutcome)
      modifies this
      ensures sid !in old(sessions) ==>
        r == RuntimeErrorValue("Session " + sid + " not found") && sessions == old(sessions)
      ensures sid in old(sessions) ==>
        && sessions == old(sessions)[sid := exec(src, old(sessions)[sid]).globals]
        && (exec(src, old(sessions)[sid]).Completed? ==> r == GlobalsValue(sessions[sid]))
        && (exec(src, old(sessions)[sid]).RaisedAfter? ==> r == Raised(exec(src, old(sessions)[sid]).exception))
      ensures forall id :: id in old(sessions) && id != sid ==> id in sessions && sessions[id] == old(sessions)[id]
      ensures sessions.Keys == old(sessions).Keys
    {
      var session := GetSession(sid);
      if session.None? {
        r := RuntimeErrorValue("Session " + sid + " not found");
        return;
      }
      var run := exec(src, session.value);
      sessions := sessions[sid := run.globals];
      match run
      case Completed(globals) =>
        r := GlobalsValue(globals);
      case RaisedAfter(_, exception) =>
        r := Raised(exception);
    }
  }
}
