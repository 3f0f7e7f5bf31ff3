/** The terminal sessions of terminal_session.rs: a map from session ids to
    running shells, and the choice of the default shell. Opening the
    pseudo-terminal, spawning the shell, reading its pid and taking its
    writer are inputs (their outcomes), as are the new session's UUID, the
    target platform and the SHELL variable. */
module TerminalSession {
  import opened Base

  /** `Session`: what the caller learns about a new session. */
  datatype Session = Session(id: string, pid: nat)

  /** `TerminalInstance`: the shell running in a pseudo-terminal of 24
      rows by 80 columns. */
  datatype Terminal = Terminal(pid: nat, shell: string, args: seq<string>, rows: nat, cols: nat)

  /** `TerminalConfig`; `create_session` does not use it. */
  datatype TerminalConfig = TerminalConfig(shell: Option<string>, args: Option<seq<string>>,
                                           env: Option<map<string, string>>)

  /** `get_default_shell`: "cmd.exe /C cmd.exe" on Windows; elsewhere the
      SHELL variable (or /bin/bash) with itself as the only argument. */
  function DefaultShell(isWindows: bool, shellEnv: Option<string>): (r: (string, seq<string>))
    ensures isWindows ==> r == ("cmd.exe", ["/C", "cmd.exe"])
    ensures !isWindows && shellEnv.Some? ==> r.0 == shellEnv.value
    ensures !isWindows && shellEnv.None? ==> r.0 == "/bin/bash"
    ensures !isWindows ==> r.1 == [r.0]
  {
    if isWindows then ("cmd.exe", ["/C", "cmd.exe"])
    else
      var shell := match shellEnv case Some(s) => s case None => "/bin/bash";
      (shell, [shell])
  }

  /** `SessionManager`. */
  class SessionManager {
    var sessions: map<string, Terminal>

    /** `SessionManager::new`: no sessions. */
    constructor ()
      ensures sessions == map[]
    {
      sessions := map[];
    }

    /** `create_session`. `uuid` is the new session id; `openpty`,
        `spawn`, `pid` and `writer` are the outcomes of the four steps that
        can fail, in that order. A failure leaves the sessions unchanged. */
    method CreateSession(config: Option<TerminalConfig>, uuid: string, isWindows: bool, shellEnv: Option<string>,
                         openpty: Result<(), string>, spawn: Result<(), string>, pid: Option<nat>,
                         writer: Result<(), string>)
      returns (r: Result<Session, string>)
      modifies this
      ensures openpty.Err? ==> r == Err(openpty.error)
      ensures openpty.Ok? && spawn.Err? ==> r == Err(spawn.error)
      ensures openpty.Ok? && spawn.Ok? && pid.None? ==> r == Err("Failed to retrieve child PID")
      ensures openpty.Ok? && spawn.Ok? && pid.Some? && writer.Err? ==> r == Err(writer.error)
      ensures r.Err? ==> sessions == old(sessions)
      ensures r.Ok? <==> openpty.Ok? && spawn.Ok? && pid.Some? && writer.Ok?
      ensures r.Ok? ==>
        && r.value == Session(uuid, pid.value)
        && sessions == old(sessions)[uuid := Terminal(pid.value, DefaultShell(isWindows, shellEnv).0,
                                                      DefaultShell(isWindows, shellEnv).1, 24, 80)]
    {
      var sessionId := uuid;
      var (shell, args) := DefaultShell(isWindows, shellEnv);
      if openpty.Err? {
        return Err(openpty.error);
      }
      if spawn.Err? {
        return Err(spawn.error);
      }
      if pid.None? {
        return Err("Failed to retrieve child PID");
      }
      if writer.Err? {
        return Err(writer.error);
      }
      sessions := sessions[sessionId := Terminal(pid.value, shell, args, 24, 80)];
      r := Ok(Session(sessionId, pid.value));
    }

    /** `get_session`. */
    function GetSession(id: string): (r: Option<Terminal>)
      reads this
      ensures r.Some? <==> id in sessions
      ensures r.Some? ==> r.value == sessions[id]
    {
      if id in sessions then Some(sessions[id]) else None
    }

    /** `remove_session`: the entry under `id`, removed, if there is one. */
    method RemoveSession(id: string) returns (r: Option<Terminal>)
      modifies this
      ensures id in old(sessions) ==> r == Some(old(sessions)[id]) && sessions == old(sessions) - {id}
      ensures id !in old(sessions) ==> r.None? && sessions == old(sessions)
    {
      if id in sessions {
        r := Some(sessions[id]);
        sessions := sessions - {id};
      } else {
        r := None;
      }
    }
  }

  /** A successful `create_session` under a fresh id, then `get_session`
      and `remove_session` of that id: the session is found with the
      default shell in a 24x80 terminal, removing it hands back the same
      terminal, and the session map is as before. */
  method CreateThenRemove(m: SessionManager, uuid: string, isWindows: bool, shellEnv: Option<string>, pid: nat)
    returns (created: Result<Session, string>, found: Option<Terminal>, removed: Option<Terminal>)
    requires uuid !in m.sessions
    modifies m
    ensures created == Ok(Session(uuid, pid))
    ensures found == Some(Terminal(pid, DefaultShell(isWindows, shellEnv).0, DefaultShell(isWindows, shellEnv).1, 24, 80))
    ensures removed == found
    ensures m.sessions == old(m.sessions)
  {
    created := m.CreateSession(None, uuid, isWindows, shellEnv, Ok(()), Ok(()), Some(pid), Ok(()));
    found := m.GetSession(uuid);
    removed := m.RemoveSession(uuid);
    assert m.sessions.Keys == old(m.sessions).Keys;
  }
}
