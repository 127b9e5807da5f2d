/**
 * The active-user table: e-mail address to the time (ms) of the user's last
 * page view, pruned every ten minutes of entries idle for more than 30
 * minutes. Its size is the "users online" figure.
 */
module Activity {

  const InactiveThresholdMs: int := 30 * 60 * 1000

  /** `updateUserActivity(email)` at time `now`: a non-empty address is stamped with `now`. */
  function UpdateUserActivity(active: map<string, int>, email: string, now: int): (r: map<string, int>)
    ensures email != "" ==> email in r && r[email] == now
    ensures forall e :: e != email ==> (e in r <==> e in active) && (e in active ==> r[e] == active[e])
    ensures email == "" ==> r == active
  {
    if email != "" then active[email := now] else active
  }

  /** Last seen at most 30 minutes before `now`. */
  predicate StillActive(now: int, lastActive: int) {
    now - lastActive <= InactiveThresholdMs
  }

  /**
   * `removeInactiveUsers()` at time `now`: walks the table and deletes every
   * entry idle for more than 30 minutes; the remaining entries keep their
   * timestamps.
   */
  method RemoveInactiveUsers(active: map<string, int>, now: int) returns (r: map<string, int>)
    ensures forall e :: e in r <==> e in active && StillActive(now, active[e])
    ensures forall e :: e in r ==> r[e] == active[e]
  {
    r := active;
    var todo := active.Keys;
    while todo != {}
      invariant todo <= active.Keys
      invariant forall e :: e in r <==> e in active && (e in todo || StillActive(now, active[e]))
      invariant forall e :: e in r ==> r[e] == active[e]
      decreases todo
    {
      var e :| e in todo;
      if now - active[e] > InactiveThresholdMs {
        r := r - {e};
      }
      todo := todo - {e};
    }
  }

  /** `getActiveUserCount()`. */
  function ActiveUserCount(active: map<string, int>): nat {
    |active|
  }
}
