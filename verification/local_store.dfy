/** The per-browser membership record of lib/supabase.ts. `window.localStorage`
    is an explicit value: the browser either has no window (server rendering)
    or a storage holding the remembered user name and the list of joined
    sessions, already decoded from JSON. `Date.now()` is a parameter. */
module LocalStore {
  import opened Optional
  import opened Seqs

  /** One entry of the "planning-poker-sessions" list. */
  datatype SessionRecord = SessionRecord(sessionId: string, userName: string, joinedAt: int)

  /** The two storage keys the application uses; `None` for a key never set. */
  datatype Storage = Storage(userName: Option<string>, sessions: Option<seq<SessionRecord>>)

  /** `typeof window === "undefined"` is `NoWindow`. */
  datatype Browser = NoWindow | Window(storage: Storage)

  /** `localStorage.getUserName()`. */
  function GetUserName(b: Browser): (r: Option<string>)
    ensures b.NoWindow? ==> r.None?
  {
    match b
    case NoWindow => None
    case Window(st) => st.userName
  }

  /** `localStorage.getUserSessions()`: the stored list, or `[]`. */
  function GetUserSessions(b: Browser): (r: seq<SessionRecord>)
    ensures b.NoWindow? || b.storage.sessions.None? ==> r == []
  {
    match b
    case NoWindow => []
    case Window(st) => st.sessions.GetOr([])
  }

  /** `localStorage.setUserName(name)`. */
  function SetUserName(b: Browser, name: string): (b': Browser)
    ensures b.NoWindow? ==> b' == b
    ensures b.Window? ==> GetUserName(b') == Some(name)
    ensures GetUserSessions(b') == GetUserSessions(b)
  {
    match b
    case NoWindow => b
    case Window(st) => Window(st.(userName := Some(name)))
  }

  /** The predicate `s.sessionId === sessionId`. */
  function SameSession(sessionId: string): SessionRecord -> bool {
    (r: SessionRecord) => r.sessionId == sessionId
  }

  /** The predicate `s.sessionId !== sessionId`. */
  function OtherSession(sessionId: string): SessionRecord -> bool {
    (r: SessionRecord) => r.sessionId != sessionId
  }

  /** The records belonging to other sessions, in stored order. */
  function OtherSessions(rs: seq<SessionRecord>, sessionId: string): seq<SessionRecord> {
    Filter(rs, OtherSession(sessionId))
  }

  /** `localStorage.addUserSession(sessionId, userName)`, with `Date.now()`
      passed in as `now`: drop the session's earlier record, append a fresh one. */
  function AddUserSession(b: Browser, sessionId: string, userName: string, now: int): (b': Browser)
    ensures b.NoWindow? ==> b' == b
    ensures GetUserName(b') == GetUserName(b)
  {
    match b
    case NoWindow => b
    case Window(st) =>
      var updated := OtherSessions(GetUserSessions(b), sessionId) + [SessionRecord(sessionId, userName, now)];
      Window(st.(sessions := Some(updated)))
  }

  /** The index of the first record for `sessionId`. */
  predicate IsFirstRecordOf(rs: seq<SessionRecord>, sessionId: string, i: int) {
    && 0 <= i < |rs|
    && rs[i].sessionId == sessionId
    && forall j :: 0 <= j < i ==> rs[j].sessionId != sessionId
  }

  /** `sessions.find((s) => s.sessionId === sessionId)`. */
  function FindSession(rs: seq<SessionRecord>, sessionId: string): (r: Option<SessionRecord>)
    ensures r.None? <==> forall i :: 0 <= i < |rs| ==> rs[i].sessionId != sessionId
    ensures r.Some? ==> exists i :: IsFirstRecordOf(rs, sessionId, i) && rs[i] == r.value
  {
    if |rs| == 0 then None
    else if rs[0].sessionId == sessionId then
      assert IsFirstRecordOf(rs, sessionId, 0);
      Some(rs[0])
    else
      var r := FindSession(rs[1..], sessionId);
      if r.Some? then
        var i :| IsFirstRecordOf(rs[1..], sessionId, i) && rs[1..][i] == r.value;
        assert IsFirstRecordOf(rs, sessionId, i + 1);
        r
      else
        r
  }

  /** `localStorage.getUserSessionData(sessionId)`: the user name remembered for
      the session, `None` for `null`. */
  function GetUserSessionData(b: Browser, sessionId: string): (r: Option<string>)
    ensures b.NoWindow? ==> r.None?
    ensures r.None? <==> forall i :: 0 <= i < |GetUserSessions(b)| ==> GetUserSessions(b)[i].sessionId != sessionId
    ensures r.Some? ==> exists i :: IsFirstRecordOf(GetUserSessions(b), sessionId, i)
                                    && GetUserSessions(b)[i].userName == r.value
  {
    match FindSession(GetUserSessions(b), sessionId)
    case Some(rec) => Some(rec.userName)
    case None => None
  }

  /** The records the list holds after joining: every other session's record
      is kept in order, the joined session has exactly one record, and that
      record is the last one, carrying the given name and time. */
  lemma AddUserSessionRecords(b: Browser, sessionId: string, userName: string, now: int)
    requires b.Window?
    ensures var rs := GetUserSessions(AddUserSession(b, sessionId, userName, now));
      && 0 < |rs|
      && rs[|rs| - 1] == SessionRecord(sessionId, userName, now)
      && Count(rs, SameSession(sessionId)) == 1
      && OtherSessions(rs, sessionId) == OtherSessions(GetUserSessions(b), sessionId)
  {
    var others := OtherSessions(GetUserSessions(b), sessionId);
    var rec := SessionRecord(sessionId, userName, now);
    var rs := others + [rec];
    assert GetUserSessions(AddUserSession(b, sessionId, userName, now)) == rs;
    FilterMembers(GetUserSessions(b), OtherSession(sessionId));
    FilterNone(others, SameSession(sessionId));
    CountAppend(others, [rec], SameSession(sessionId));
    FilterAll(others, OtherSession(sessionId));
    FilterAppend(others, [rec], OtherSession(sessionId));
    FilterNone([rec], OtherSession(sessionId));
  }

  /** Joining drops the session's earlier records and adds one. */
  lemma AddUserSessionLength(b: Browser, sessionId: string, userName: string, now: int)
    requires b.Window?
    ensures |GetUserSessions(AddUserSession(b, sessionId, userName, now))|
            == |GetUserSessions(b)| - Count(GetUserSessions(b), SameSession(sessionId)) + 1
  {
    CountComplement(GetUserSessions(b), SameSession(sessionId), OtherSession(sessionId));
  }

  /** After joining, the membership record answers with the name just stored. */
  lemma AddThenGetSessionData(b: Browser, sessionId: string, userName: string, now: int)
    ensures GetUserSessionData(AddUserSession(b, sessionId, userName, now), sessionId)
            == if b.Window? then Some(userName) else None
  {
    if b.Window? {
      var others := OtherSessions(GetUserSessions(b), sessionId);
      var rs := GetUserSessions(AddUserSession(b, sessionId, userName, now));
      assert rs == others + [SessionRecord(sessionId, userName, now)];
      FilterMembers(GetUserSessions(b), OtherSession(sessionId));
      assert forall i :: 0 <= i < |others| ==> others[i] in others;
      var r := FindSession(rs, sessionId);
      assert rs[|others|].sessionId == sessionId;
      var i :| IsFirstRecordOf(rs, sessionId, i) && rs[i] == r.value;
      if i < |others| {
        assert false;
      }
    }
  }

  /** Dropping another session's records does not change which record a lookup finds. */
  lemma {:induction false} FindSessionSkipping(rs: seq<SessionRecord>, dropped: string, sessionId: string)
    requires dropped != sessionId
    ensures FindSession(OtherSessions(rs, dropped), sessionId) == FindSession(rs, sessionId)
    decreases |rs|
  {
    if |rs| != 0 {
      FindSessionSkipping(rs[1..], dropped, sessionId);
      var rest := OtherSessions(rs[1..], dropped);
      if rs[0].sessionId != dropped {
        assert OtherSessions(rs, dropped) == [rs[0]] + rest;
        assert ([rs[0]] + rest)[1..] == rest;
      }
    }
  }

  /** Joining one session leaves what is remembered about every other session. */
  lemma AddKeepsOtherSessionData(b: Browser, sessionId: string, userName: string, now: int, other: string)
    requires other != sessionId
    ensures GetUserSessionData(AddUserSession(b, sessionId, userName, now), other)
            == GetUserSessionData(b, other)
  {
    if b.Window? {
      var others := OtherSessions(GetUserSessions(b), sessionId);
      var rec := SessionRecord(sessionId, userName, now);
      var rs := GetUserSessions(AddUserSession(b, sessionId, userName, now));
      assert rs == others + [rec];
      FindSessionSkipping(GetUserSessions(b), sessionId, other);
      FindSessionAppendMiss(others, rec, other);
    }
  }

  /** A record for a different session appended at the end is never found first. */
  lemma FindSessionAppendMiss(rs: seq<SessionRecord>, rec: SessionRecord, sessionId: string)
    requires rec.sessionId != sessionId
    ensures FindSession(rs + [rec], sessionId) == FindSession(rs, sessionId)
  {
    var all := rs + [rec];
    var r := FindSession(all, sessionId);
    if r.Some? {
      var i :| IsFirstRecordOf(all, sessionId, i) && all[i] == r.value;
      assert all[i] == rs[i];
      var r' := FindSession(rs, sessionId);
      if r'.Some? {
        var j :| IsFirstRecordOf(rs, sessionId, j) && rs[j] == r'.value;
        assert all[j] == rs[j];
      } else {
        assert false;
      }
    } else {
      assert forall i :: 0 <= i < |rs| ==> rs[i] == all[i];
    }
  }

  /** Joining the same session again replaces its record: the later join alone
      decides the outcome. */
  lemma RejoinReplaces(b: Browser, sessionId: string, first: string, second: string, t1: int, t2: int)
    ensures AddUserSession(AddUserSession(b, sessionId, first, t1), sessionId, second, t2)
            == AddUserSession(b, sessionId, second, t2)
  {
    if b.Window? {
      var others := OtherSessions(GetUserSessions(b), sessionId);
      var rec := SessionRecord(sessionId, first, t1);
      FilterMembers(GetUserSessions(b), OtherSession(sessionId));
      FilterAll(others, OtherSession(sessionId));
      FilterAppend(others, [rec], OtherSession(sessionId));
      FilterNone([rec], OtherSession(sessionId));
      assert OtherSessions(others + [rec], sessionId) == others;
    }
  }

  /** Joining the same session a second time keeps the list's length and its
      earlier records; only the last record's time changes. */
  lemma RejoinSameShape(b: Browser, sessionId: string, userName: string, t1: int, t2: int)
    requires b.Window?
    ensures var once := GetUserSessions(AddUserSession(b, sessionId, userName, t1));
      var twice := GetUserSessions(AddUserSession(AddUserSession(b, sessionId, userName, t1), sessionId, userName, t2));
      && |twice| == |once| > 0
      && twice[..|twice| - 1] == once[..|once| - 1]
      && twice[|twice| - 1] == once[|once| - 1].(joinedAt := t2)
  {
    var others := OtherSessions(GetUserSessions(b), sessionId);
    RejoinReplaces(b, sessionId, userName, userName, t1, t2);
    assert GetUserSessions(AddUserSession(b, sessionId, userName, t1)) == others + [SessionRecord(sessionId, userName, t1)];
    assert GetUserSessions(AddUserSession(b, sessionId, userName, t2)) == others + [SessionRecord(sessionId, userName, t2)];
    assert (others + [SessionRecord(sessionId, userName, t1)])[..|others|] == others;
    assert (others + [SessionRecord(sessionId, userName, t2)])[..|others|] == others;
  }
}

