/** Interleaved login, refresh and logout: every lookup and every write is a step of its own. */
module SessionRuns {
  import opened Arithmetic
  import opened Options
  import opened SessionStore

  datatype Pending = RefreshOf(id: int) | LogoutOf(id: int)

  /** The table, the calls between their lookup and their write (keyed by the time of the lookup), and a
  record of what happened: the login each session descends from, and per login how many logouts hit a
  live row and how many rotations hit none. */
  datatype State = State(sessions: seq<Session>, time: int, pending: map<int, Pending>,
                         root: seq<int>, logouts: seq<int>, misses: seq<int>)

  const INIT := State([], 0, map[], [], [], [])

  datatype Step =
    | Login(user: int, hash: string, expiresAt: int)
    | RefreshLookup(hash: string, now: int)
    | RefreshWrite(call: int, newHash: string, now: int, expiresAt: int)
    | LogoutLookup(hash: string)
    | LogoutWrite(call: int, now: int)
    | Abort(call: int)

  /** A new row descending from login r, or founding its own. */
  function Record(s: State, r: Option<int>): State {
    s.(root := s.root + [if r.Some? then r.value else |s.root|], logouts := s.logouts + [0], misses := s.misses + [0])
  }

  /** The effect of one step; a step that does not apply, fails or is rejected leaves the table alone. */
  function Next(s: State, step: Step): State
    requires WellFormed(s)
  {
    var t := s.(time := s.time + 1);
    match step
    case Login(user, hash, expiresAt) =>
      if Find(s.sessions, hash).Some? then t
      else Record(t, None).(sessions := s.sessions + [NewSession(user, hash, expiresAt)])
    case RefreshLookup(hash, now) =>
      var id := Find(s.sessions, hash);
      if id.Some? && Usable(s.sessions[id.value], now) then t.(pending := s.pending[s.time := RefreshOf(id.value)]) else t
    case RefreshWrite(call, newHash, now, expiresAt) =>
      if call !in s.pending || !s.pending[call].RefreshOf? then t
      else
        var id := s.pending[call].id;
        var done := t.(pending := s.pending - {call});
        if Find(s.sessions, newHash).Some? then done
        else
          var next := NewSession(s.sessions[id].user, newHash, expiresAt);
          var grown := Record(done, Some(s.root[id])).(sessions := Rotate(s.sessions, id, next, now));
          if s.sessions[id].revokedAt.None? then grown else grown.(misses := Bump(grown.misses, s.root[id]))
    case LogoutLookup(hash) =>
      var id := Find(s.sessions, hash);
      if id.Some? then t.(pending := s.pending[s.time := LogoutOf(id.value)]) else t
    case LogoutWrite(call, now) =>
      if call !in s.pending || !s.pending[call].LogoutOf? then t
      else
        var id := s.pending[call].id;
        var done := t.(pending := s.pending - {call}, sessions := Revoke(s.sessions, id, now));
        if s.sessions[id].revokedAt.None? then done.(logouts := Bump(s.logouts, s.root[id])) else done
    case Abort(call) => t.(pending := s.pending - {call})
  }

  function Bump(counts: seq<int>, i: int): seq<int> {
    if 0 <= i < |counts| then counts[i := counts[i] + 1] else counts
  }

  /** Sizes agree and every reference points into the table. */
  ghost predicate WellFormed(s: State) {
    && |s.root| == |s.logouts| == |s.misses| == |s.sessions|
    && (forall c :: c in s.pending ==> 0 <= s.pending[c].id < |s.sessions| && c < s.time)
    && (forall i :: 0 <= i < |s.root| ==> 0 <= s.root[i] <= i && s.root[s.root[i]] == s.root[i])
  }

  lemma NextWellFormed(s: State, step: Step)
    requires WellFormed(s)
    ensures WellFormed(Next(s, step)) && Next(s, step).time == s.time + 1
  {
    NextReferences(s, step);
    NextRoots(s, step);
  }

  /** Pending calls keep pointing into the table and stay older than the clock. */
  lemma NextReferences(s: State, step: Step)
    requires WellFormed(s)
    ensures var t := Next(s, step);
            && t.time == s.time + 1 && |s.sessions| <= |t.sessions|
            && |t.root| == |t.logouts| == |t.misses| == |t.sessions|
            && forall c :: c in t.pending ==> 0 <= t.pending[c].id < |t.sessions| && c < t.time
  {
  }

  /** Every recorded login is an earlier or the same session, and founds its own chain. */
  lemma NextRoots(s: State, step: Step)
    requires WellFormed(s)
    ensures var root := Next(s, step).root;
            forall i :: 0 <= i < |root| ==> 0 <= root[i] <= i && root[root[i]] == root[i]
  {
  }

  // ---------- runs ----------

  ghost predicate IsRun(states: seq<State>, steps: seq<Step>) {
    && |states| == |steps| + 1 && states[0] == INIT
    && (forall i :: 0 <= i < |states| ==> WellFormed(states[i]))
    && (forall i :: 0 <= i < |steps| ==> states[i + 1] == Next(states[i], steps[i]))
  }

  /** Every sequence of steps is a run: no interleaving is excluded. */
  lemma {:induction false} RunExists(steps: seq<Step>) returns (states: seq<State>)
    ensures IsRun(states, steps)
  {
    if steps == [] {
      states := [INIT];
    } else {
      var n := |steps| - 1;
      states := RunExists(steps[..n]);
      RunGoesOn(states, steps[..n], steps[n]);
      assert steps == steps[..n] + [steps[n]];
      states := states + [Next(states[n], steps[n])];
    }
  }

  lemma RunGoesOn(states: seq<State>, steps: seq<Step>, step: Step)
    requires IsRun(states, steps)
    ensures IsRun(states + [Next(states[|steps|], step)], steps + [step])
  {
    NextWellFormed(states[|steps|], step);
  }

  // ---------- the calls as steps ----------

  /** A login is one step, which adds its row unless the token hash exists. */
  lemma LoginIsStep(s: State, user: int, hash: string, expiresAt: int)
    requires WellFormed(s)
    ensures Next(s, Login(user, hash, expiresAt)).sessions ==
            s.sessions + if Find(s.sessions, hash).None? then [Session(user, hash, expiresAt, None, None)] else []
  {
  }

  /** A refresh whose write follows its lookup at once does what an uninterrupted call does. */
  lemma RefreshIsSteps(s: State, hash: string, newHash: string, now: int, expiresAt: int)
    requires WellFormed(s)
    ensures var looked := Next(s, RefreshLookup(hash, now));
            && WellFormed(looked)
            && var done := Next(looked, RefreshWrite(s.time, newHash, now, expiresAt));
               var id := Find(s.sessions, hash);
               && done.pending == s.pending
               && done.sessions ==
                  if id.Some? && s.sessions[id.value].revokedAt.None? && s.sessions[id.value].expiresAt > now &&
                     Find(s.sessions, newHash).None?
                  then s.sessions[id.value := s.sessions[id.value].(revokedAt := Some(now), replacedBy := Some(|s.sessions|))] +
                       [Session(s.sessions[id.value].user, newHash, expiresAt, None, None)]
                  else s.sessions
  {
    NextWellFormed(s, RefreshLookup(hash, now));
    if s.time in Next(s, RefreshLookup(hash, now)).pending {
      assert Next(s, RefreshLookup(hash, now)).pending - {s.time} == s.pending;
    }
  }

  /** So does a logout. */
  lemma LogoutIsSteps(s: State, hash: string, now: int)
    requires WellFormed(s)
    ensures var looked := Next(s, LogoutLookup(hash));
            && WellFormed(looked)
            && var done := Next(looked, LogoutWrite(s.time, now));
               var id := Find(s.sessions, hash);
               && done.pending == s.pending
               && done.sessions == if id.Some? && s.sessions[id.value].revokedAt.None?
                                   then s.sessions[id.value := s.sessions[id.value].(revokedAt := Some(now))] else s.sessions
  {
    NextWellFormed(s, LogoutLookup(hash));
    if s.time in Next(s, LogoutLookup(hash)).pending {
      assert Next(s, LogoutLookup(hash)).pending - {s.time} == s.pending;
    }
  }

  // ---------- write-once columns ----------

  /** t is a later version of row s: identity columns equal, and once the row is revoked nothing changes. */
  predicate Later(s: Session, t: Session) {
    && s.user == t.user && s.hash == t.hash && s.expiresAt == t.expiresAt
    && (s.revokedAt.Some? ==> t == s)
  }

  ghost predicate TableLater(s: seq<Session>, t: seq<Session>) {
    |s| <= |t| && forall i :: 0 <= i < |s| ==> Later(s[i], t[i])
  }

  lemma StepLater(s: State, step: Step)
    requires WellFormed(s)
    ensures TableLater(s.sessions, Next(s, step).sessions)
  {
  }

  // ---------- the replacement graph ----------

  /** Links lead from a revoked row to a later row of the same user and the same login, no two rows link to
  one successor, and no two rows share a token. */
  ghost predicate LinksSound(t: seq<Session>, root: seq<int>) {
    && |t| == |root| && DistinctHashes(t)
    && (forall i :: 0 <= i < |t| && t[i].replacedBy.Some? ==> IsLink(t, root, i, t[i].replacedBy.value))
    && (forall i, k :: 0 <= i < k < |t| && t[i].replacedBy.Some? ==> t[i].replacedBy != t[k].replacedBy)
  }

  ghost predicate IsLink(t: seq<Session>, root: seq<int>, i: int, j: int) {
    0 <= i < j < |t| == |root| && t[j].user == t[i].user && root[j] == root[i] && t[i].revokedAt.Some?
  }

  lemma CreateKeepsLinks(t: seq<Session>, root: seq<int>, next: Session, r: int)
    requires LinksSound(t, root) && Find(t, next.hash).None? && next.replacedBy.None?
    ensures LinksSound(t + [next], root + [r])
  {
  }

  lemma RevokeKeepsLinks(t: seq<Session>, root: seq<int>, id: int, now: int)
    requires LinksSound(t, root) && 0 <= id < |t|
    ensures LinksSound(Revoke(t, id, now), root)
  {
  }

  lemma RotateKeepsLinks(t: seq<Session>, root: seq<int>, id: int, next: Session, now: int)
    requires LinksSound(t, root) && 0 <= id < |t| && Find(t, next.hash).None?
    requires next.replacedBy.None? && next.user == t[id].user
    ensures LinksSound(Rotate(t, id, next, now), root + [root[id]])
  {
    CreateKeepsLinks(t, root, next, root[id]);
  }

  lemma StepKeepsLinks(s: State, step: Step)
    requires WellFormed(s) && LinksSound(s.sessions, s.root)
    ensures LinksSound(Next(s, step).sessions, Next(s, step).root)
  {
    match step
    case Login(user, hash, expiresAt) =>
      if Find(s.sessions, hash).None? {
        CreateKeepsLinks(s.sessions, s.root, NewSession(user, hash, expiresAt), |s.root|);
      }
    case RefreshWrite(call, newHash, now, expiresAt) =>
      if call in s.pending && s.pending[call].RefreshOf? && Find(s.sessions, newHash).None? {
        var id := s.pending[call].id;
        RotateKeepsLinks(s.sessions, s.root, id, NewSession(s.sessions[id].user, newHash, expiresAt), now);
      }
    case LogoutWrite(call, now) =>
      if call in s.pending && s.pending[call].LogoutOf? {
        RevokeKeepsLinks(s.sessions, s.root, s.pending[call].id, now);
      }
    case _ =>
  }

  lemma {:induction false} LinksAlwaysSound(states: seq<State>, steps: seq<Step>, i: int)
    requires IsRun(states, steps) && 0 <= i <= |steps|
    ensures LinksSound(states[i].sessions, states[i].root)
    decreases i
  {
    if i > 0 {
      LinksAlwaysSound(states, steps, i - 1);
      StepKeepsLinks(states[i - 1], steps[i - 1]);
    }
  }

  /** revoked_at and replaced_by are written at most once over a whole run, and rows never disappear. */
  lemma {:induction false} WrittenOnce(states: seq<State>, steps: seq<Step>, i: int, j: int)
    requires IsRun(states, steps) && 0 <= i <= j <= |steps|
    ensures |states[i].sessions| <= |states[j].sessions|
    ensures forall k :: 0 <= k < |states[i].sessions| ==>
              var s, t := states[i].sessions[k], states[j].sessions[k];
              && s.user == t.user && s.hash == t.hash
              && (s.revokedAt.Some? ==> t.revokedAt == s.revokedAt)
              && (s.replacedBy.Some? ==> t.replacedBy == s.replacedBy)
              && (s.revokedAt.Some? && s.replacedBy.None? ==> t.replacedBy.None?)
  {
    TablesLater(states, steps, i, j);
    LinksAlwaysSound(states, steps, i);
    forall k | 0 <= k < |states[i].sessions| ensures Later(states[i].sessions[k], states[j].sessions[k]) {}
    forall k | 0 <= k < |states[i].sessions| && states[i].sessions[k].replacedBy.Some?
      ensures states[i].sessions[k].revokedAt.Some?
    {
      assert IsLink(states[i].sessions, states[i].root, k, states[i].sessions[k].replacedBy.value);
    }
  }

  lemma {:induction false} TablesLater(states: seq<State>, steps: seq<Step>, i: int, j: int)
    requires IsRun(states, steps) && 0 <= i <= j <= |steps|
    ensures TableLater(states[i].sessions, states[j].sessions)
    decreases j
  {
    if i < j {
      TablesLater(states, steps, i, j - 1);
      StepLater(states[j - 1], steps[j - 1]);
      var s, t, u := states[i].sessions, states[j - 1].sessions, states[j].sessions;
      forall k | 0 <= k < |s| ensures Later(s[k], u[k]) {
        assert Later(s[k], t[k]) && Later(t[k], u[k]);
      }
    }
  }

  /** path follows replacement links. */
  ghost predicate IsChain(t: seq<Session>, path: seq<int>) {
    && (forall k :: 0 <= k < |path| ==> 0 <= path[k] < |t|)
    && (forall k :: 0 <= k < |path| - 1 ==> t[path[k]].replacedBy == Some(path[k + 1]))
  }

  /** Chains only move forward in time within one user's sessions, so the replacement graph has no cycle. */
  lemma {:induction false} ChainsMoveForward(s: State, path: seq<int>, a: int, b: int)
    requires LinksSound(s.sessions, s.root) && IsChain(s.sessions, path) && 0 <= a < b < |path|
    ensures path[a] < path[b] && s.sessions[path[a]].user == s.sessions[path[b]].user
    decreases b
  {
    assert s.sessions[path[b - 1]].replacedBy == Some(path[b]);
    assert IsLink(s.sessions, s.root, path[b - 1], path[b]);
    if a < b - 1 {
      ChainsMoveForward(s, path, a, b - 1);
    }
  }

  // ---------- a consumed token is dead ----------

  /** The session is revoked and the only refreshes still holding it looked it up before the given time. */
  ghost predicate Consumed(s: State, id: int, time: int) {
    && 0 <= id < |s.sessions| && s.sessions[id].revokedAt.Some?
    && (forall c :: c in s.pending && s.pending[c] == RefreshOf(id) ==> c < time)
  }

  lemma StepKeepsConsumed(s: State, step: Step, id: int, time: int)
    requires WellFormed(s) && DistinctHashes(s.sessions) && Consumed(s, id, time)
    ensures Consumed(Next(s, step), id, time)
  {
    StepLater(s, step);
  }

  /** Does this step carry out the write of a call that had found session id? */
  predicate Writes(s: State, step: Step, id: int) {
    match step
    case RefreshWrite(call, newHash, _, _) => call in s.pending && s.pending[call] == RefreshOf(id) && Find(s.sessions, newHash).None?
    case LogoutWrite(call, _) => call in s.pending && s.pending[call] == LogoutOf(id)
    case _ => false
  }

  /** Once a refresh or logout that found a token has done its write (step w), a refresh of that token whose
  lookup comes later creates no session: every refresh write on it belongs to a call that had looked it up before. */
  lemma {:induction false} NoRefreshAfterWrite(states: seq<State>, steps: seq<Step>, id: int, w: int, k: int)
    requires IsRun(states, steps) && 0 <= w < k <= |steps| && Writes(states[w], steps[w], id)
    ensures Consumed(states[k], id, w)
    ensures k < |steps| && steps[k].RefreshWrite? && Writes(states[k], steps[k], id) ==> steps[k].call < w
    decreases k
  {
    LinksAlwaysSound(states, steps, k - 1);
    if w < k - 1 {
      NoRefreshAfterWrite(states, steps, id, w, k - 1);
      StepKeepsConsumed(states[k - 1], steps[k - 1], id, w);
    } else {
      TimeIsPosition(states, steps, w);
      assert states[k] == Next(states[w], steps[w]);
    }
  }

  lemma {:induction false} TimeIsPosition(states: seq<State>, steps: seq<Step>, i: int)
    requires IsRun(states, steps) && 0 <= i <= |steps|
    ensures states[i].time == i
    decreases i
  {
    if i > 0 {
      TimeIsPosition(states, steps, i - 1);
      NextWellFormed(states[i - 1], steps[i - 1]);
    }
  }

  /** The later lookup itself is rejected: it leaves nothing pending. */
  lemma LookupRejected(s: State, id: int, time: int, now: int)
    requires WellFormed(s) && DistinctHashes(s.sessions) && Consumed(s, id, time)
    ensures Next(s, RefreshLookup(s.sessions[id].hash, now)) == s.(time := s.time + 1)
  {
  }

  // ---------- an expired token is dead ----------

  /** Step c looked up session id by its token hash, when it was not revoked and not expired. */
  ghost predicate FoundLive(states: seq<State>, steps: seq<Step>, c: int, id: int)
    requires |states| == |steps| + 1
  {
    && 0 <= c < |steps| && steps[c].RefreshLookup? && 0 <= id < |states[c].sessions|
    && states[c].sessions[id].hash == steps[c].hash
    && states[c].sessions[id].revokedAt.None? && states[c].sessions[id].expiresAt > steps[c].now
  }

  ghost predicate PendingFoundLive(states: seq<State>, steps: seq<Step>, i: int)
    requires |states| == |steps| + 1 && 0 <= i <= |steps|
  {
    forall c :: c in states[i].pending && states[i].pending[c].RefreshOf? ==> c < i && FoundLive(states, steps, c, states[i].pending[c].id)
  }

  lemma {:induction false} AlwaysFoundLive(states: seq<State>, steps: seq<Step>, i: int)
    requires IsRun(states, steps) && 0 <= i <= |steps|
    ensures PendingFoundLive(states, steps, i)
    decreases i
  {
    if i > 0 {
      AlwaysFoundLive(states, steps, i - 1);
      TimeIsPosition(states, steps, i - 1);
      NewPendingFoundLive(states[i - 1], steps[i - 1]);
      assert states[i - 1 + 1] == Next(states[i - 1], steps[i - 1]);
    }
  }

  lemma NewPendingFoundLive(s: State, step: Step)
    requires WellFormed(s)
    ensures var t := Next(s, step).pending;
            forall c :: c in t && t[c].RefreshOf? && !(c in s.pending && s.pending[c] == t[c]) ==>
              && c == s.time && step.RefreshLookup? && 0 <= t[c].id < |s.sessions| && s.sessions[t[c].id].hash == step.hash
              && s.sessions[t[c].id].revokedAt.None? && s.sessions[t[c].id].expiresAt > step.now
  {
  }

  /** Every session a refresh creates goes back to an earlier lookup that found the presented session neither revoked
  nor expired; the new session belongs to the same user. */
  lemma RefreshFoundLive(states: seq<State>, steps: seq<Step>, k: int) returns (id: int)
    requires IsRun(states, steps) && 0 <= k < |steps| && steps[k].RefreshWrite?
    requires |states[k + 1].sessions| > |states[k].sessions|
    ensures steps[k].call < k && FoundLive(states, steps, steps[k].call, id) && id < |states[k].sessions|
    ensures states[k + 1].sessions[|states[k].sessions|].user == states[k].sessions[id].user
  {
    AlwaysFoundLive(states, steps, k);
    assert states[k + 1] == Next(states[k], steps[k]);
    id := states[k].pending[steps[k].call].id;
  }

  // ---------- counting live sessions ----------

  function Count(flags: seq<bool>): int {
    if flags == [] then 0 else Count(flags[..|flags| - 1]) + if flags[|flags| - 1] then 1 else 0
  }

  lemma {:induction false} CountUpdate(flags: seq<bool>, i: int, b: bool)
    requires 0 <= i < |flags|
    ensures Count(flags[i := b]) == Count(flags) + (if b then 1 else 0) - (if flags[i] then 1 else 0)
  {
    var n := |flags| - 1;
    if i == n {
      assert flags[i := b][..n] == flags[..n];
    } else {
      CountUpdate(flags[..n], i, b);
      assert flags[i := b][..n] == flags[..n][i := b];
    }
  }

  lemma {:induction false} CountNone(flags: seq<bool>)
    requires forall i :: 0 <= i < |flags| ==> !flags[i]
    ensures Count(flags) == 0
  {
    if flags != [] {
      CountNone(flags[..|flags| - 1]);
    }
  }

  /** Which sessions descending from login r are live; all logins for None. */
  function LiveFlags(t: seq<Session>, root: seq<int>, r: Option<int>): (flags: seq<bool>)
    requires |root| == |t|
    ensures |flags| == |t|
  {
    seq(|t|, i requires 0 <= i < |t| => (r.None? || root[i] == r.value) && t[i].revokedAt.None?)
  }

  function Live(t: seq<Session>, root: seq<int>, r: Option<int>): int
    requires |root| == |t|
  {
    Count(LiveFlags(t, root, r))
  }

  function InChain(root: int, r: Option<int>): int {
    if r.None? || root == r.value then 1 else 0
  }

  lemma LiveAfterCreate(t: seq<Session>, root: seq<int>, next: Session, root1: int, r: Option<int>)
    requires |root| == |t| && next.revokedAt.None?
    ensures Live(t + [next], root + [root1], r) == Live(t, root, r) + InChain(root1, r)
  {
    assert LiveFlags(t + [next], root + [root1], r) == LiveFlags(t, root, r) + [InChain(root1, r) == 1];
  }

  /** Revoking a live row, linked or not, takes one live session from its login. */
  lemma LiveAfterRevoke(t: seq<Session>, root: seq<int>, id: int, revoked: Session, r: Option<int>)
    requires |root| == |t| && 0 <= id < |t| && t[id].revokedAt.None? && revoked.revokedAt.Some?
    ensures Live(t[id := revoked], root, r) == Live(t, root, r) - InChain(root[id], r)
  {
    assert LiveFlags(t[id := revoked], root, r) == LiveFlags(t, root, r)[id := false];
    CountUpdate(LiveFlags(t, root, r), id, false);
  }

  lemma LiveAfterRotate(t: seq<Session>, root: seq<int>, id: int, next: Session, now: int, r: Option<int>)
    requires |root| == |t| && 0 <= id < |t| && next.revokedAt.None?
    ensures Live(Rotate(t, id, next, now), root + [root[id]], r) ==
            Live(t, root, r) + if t[id].revokedAt.None? then 0 else InChain(root[id], r)
  {
    LiveAfterCreate(t, root, next, root[id], r);
    if t[id].revokedAt.None? {
      LiveAfterRevoke(t + [next], root + [root[id]], id, t[id].(revokedAt := Some(now), replacedBy := Some(|t|)), r);
    }
  }

  /** No session descends from a login that does not exist yet. */
  lemma LiveOfNewLogin(t: seq<Session>, root: seq<int>)
    requires |root| == |t| && forall i :: 0 <= i < |root| ==> root[i] <= i
    ensures Live(t, root, Some(|t|)) == 0
  {
    CountNone(LiveFlags(t, root, Some(|t|)));
  }

  lemma {:induction false} SumBump(counts: seq<int>, i: int)
    requires 0 <= i < |counts|
    ensures Sum(Bump(counts, i)) == Sum(counts) + 1
  {
    var n := |counts| - 1;
    if i == n {
      assert Bump(counts, i)[..n] == counts[..n];
    } else {
      SumBump(counts[..n], i);
      assert Bump(counts, i)[..n] == Bump(counts[..n], i);
    }
  }

  predicate IsLogin(root: seq<int>, r: int) {
    0 <= r < |root| && root[r] == r
  }

  function LoginFlags(root: seq<int>): (flags: seq<bool>)
    ensures |flags| == |root|
  {
    seq(|root|, i requires 0 <= i < |root| => root[i] == i)
  }

  lemma LoginsAfterCreate(root: seq<int>, r: int)
    ensures Count(LoginFlags(root + [r])) == Count(LoginFlags(root)) + if r == |root| then 1 else 0
  {
    assert LoginFlags(root + [r]) == LoginFlags(root) + [r == |root|];
  }

  /** Per login: one live session, less its effective logouts, plus its rotations that hit no row. */
  ghost predicate ChainBalanced(s: State, r: int)
    requires WellFormed(s)
  {
    IsLogin(s.root, r) ==> Live(s.sessions, s.root, Some(r)) == 1 - s.logouts[r] + s.misses[r]
  }

  /** Over the whole table: logins, less effective logouts, plus rotations that hit no row. */
  ghost predicate TableBalanced(s: State)
    requires WellFormed(s)
  {
    Live(s.sessions, s.root, None) == Count(LoginFlags(s.root)) - Sum(s.logouts) + Sum(s.misses)
  }

  lemma StepKeepsChainBalance(s: State, step: Step, r: int)
    requires WellFormed(s) && ChainBalanced(s, r)
    ensures WellFormed(Next(s, step)) && ChainBalanced(Next(s, step), r)
  {
    NextWellFormed(s, step);
    match step
    case Login(user, hash, expiresAt) =>
      LiveOfNewLogin(s.sessions, s.root);
      LiveAfterCreate(s.sessions, s.root, NewSession(user, hash, expiresAt), |s.root|, Some(r));
    case RefreshWrite(call, newHash, now, expiresAt) =>
      if call in s.pending && s.pending[call].RefreshOf? && Find(s.sessions, newHash).None? {
        var id := s.pending[call].id;
        LiveAfterRotate(s.sessions, s.root, id, NewSession(s.sessions[id].user, newHash, expiresAt), now, Some(r));
      }
    case LogoutWrite(call, now) =>
      if call in s.pending && s.pending[call].LogoutOf? && s.sessions[s.pending[call].id].revokedAt.None? {
        var id := s.pending[call].id;
        LiveAfterRevoke(s.sessions, s.root, id, s.sessions[id].(revokedAt := Some(now)), Some(r));
      }
    case _ =>
  }

  lemma StepKeepsTableBalance(s: State, step: Step)
    requires WellFormed(s) && TableBalanced(s)
    ensures WellFormed(Next(s, step)) && TableBalanced(Next(s, step))
  {
    NextWellFormed(s, step);
    match step
    case Login(user, hash, expiresAt) =>
      LiveAfterCreate(s.sessions, s.root, NewSession(user, hash, expiresAt), |s.root|, None);
      LoginsAfterCreate(s.root, |s.root|);
      SumAppend(s.logouts, 0);
      SumAppend(s.misses, 0);
    case RefreshWrite(call, newHash, now, expiresAt) =>
      if call in s.pending && s.pending[call].RefreshOf? && Find(s.sessions, newHash).None? {
        var id := s.pending[call].id;
        LiveAfterRotate(s.sessions, s.root, id, NewSession(s.sessions[id].user, newHash, expiresAt), now, None);
        LoginsAfterCreate(s.root, s.root[id]);
        SumAppend(s.logouts, 0);
        SumAppend(s.misses, 0);
        SumBump(s.misses + [0], s.root[id]);
      }
    case LogoutWrite(call, now) =>
      if call in s.pending && s.pending[call].LogoutOf? && s.sessions[s.pending[call].id].revokedAt.None? {
        var id := s.pending[call].id;
        LiveAfterRevoke(s.sessions, s.root, id, s.sessions[id].(revokedAt := Some(now)), None);
        SumBump(s.logouts, s.root[id]);
      }
    case _ =>
  }

  /** Conservation of live sessions over every interleaving, per login and over the table. */
  lemma {:induction false} LiveSessionsConserved(states: seq<State>, steps: seq<Step>, i: int, r: int)
    requires IsRun(states, steps) && 0 <= i <= |steps|
    ensures WellFormed(states[i]) && ChainBalanced(states[i], r) && TableBalanced(states[i])
    decreases i
  {
    if i > 0 {
      LiveSessionsConserved(states, steps, i - 1, r);
      StepKeepsChainBalance(states[i - 1], steps[i - 1], r);
      StepKeepsTableBalance(states[i - 1], steps[i - 1]);
    }
  }

  /** A login ends up with several live sessions exactly when more of its rotations hit no row than logouts hit one. */
  lemma SeveralLiveExactly(states: seq<State>, steps: seq<Step>, i: int, r: int)
    requires IsRun(states, steps) && 0 <= i <= |steps| && IsLogin(states[i].root, r)
    ensures WellFormed(states[i])
    ensures Live(states[i].sessions, states[i].root, Some(r)) > 1 <==> states[i].misses[r] > states[i].logouts[r]
  {
    LiveSessionsConserved(states, steps, i, r);
  }

  // ---------- calls that do not interleave ----------

  /** Every lookup finds all earlier calls finished. */
  ghost predicate IsSequential(states: seq<State>, steps: seq<Step>) {
    IsRun(states, steps) &&
    forall i :: 0 <= i < |steps| && (steps[i].RefreshLookup? || steps[i].LogoutLookup?) ==> states[i].pending == map[]
  }

  /** At most one call is under way, a refresh under way holds a live session, and of every login only the
  last session can be live. */
  ghost predicate Quiet(s: State) {
    && WellFormed(s)
    && (forall c, d :: c in s.pending && d in s.pending ==> c == d)
    && (forall c :: c in s.pending && s.pending[c].RefreshOf? ==> s.sessions[s.pending[c].id].revokedAt.None?)
    && OnlyLastLive(s.sessions, s.root)
  }

  ghost predicate OnlyLastLive(t: seq<Session>, root: seq<int>)
    requires |root| == |t|
  {
    forall i, j :: 0 <= i < j < |t| && root[i] == root[j] ==> t[i].revokedAt.Some?
  }

  lemma StepKeepsQuiet(s: State, step: Step)
    requires Quiet(s) && (step.RefreshLookup? || step.LogoutLookup? ==> s.pending == map[])
    ensures Quiet(Next(s, step))
  {
    NextWellFormed(s, step);
  }

  lemma {:induction false} AlwaysQuiet(states: seq<State>, steps: seq<Step>, i: int)
    requires IsSequential(states, steps) && 0 <= i <= |steps|
    ensures Quiet(states[i])
    decreases i
  {
    if i > 0 {
      AlwaysQuiet(states, steps, i - 1);
      StepKeepsQuiet(states[i - 1], steps[i - 1]);
    }
  }

  lemma {:induction false} CountAtMostOne(flags: seq<bool>)
    requires forall i, j :: 0 <= i < j < |flags| ==> !(flags[i] && flags[j])
    ensures Count(flags) <= 1
  {
    if flags != [] {
      var before := flags[..|flags| - 1];
      if flags[|flags| - 1] { CountNone(before); } else { CountAtMostOne(before); }
    }
  }

  /** Without interleaving each login has at most one live session, the last of its chain. */
  lemma SequentialOneLive(states: seq<State>, steps: seq<Step>, i: int, r: int)
    requires IsSequential(states, steps) && 0 <= i <= |steps|
    ensures WellFormed(states[i])
    ensures OnlyLastLive(states[i].sessions, states[i].root) && Live(states[i].sessions, states[i].root, Some(r)) <= 1
  {
    AlwaysQuiet(states, steps, i);
    CountAtMostOne(LiveFlags(states[i].sessions, states[i].root, Some(r)));
  }

  /** Interleaved, two refreshes of one token can both succeed: the second rotation hits no row and its new
  session stays live beside the first one. */
  lemma InterleavedTwoLive() returns (states: seq<State>, steps: seq<Step>)
    ensures IsRun(states, steps)
    ensures var last := states[|steps|];
            IsLogin(last.root, 0) && Live(last.sessions, last.root, Some(0)) == 2 && !OnlyLastLive(last.sessions, last.root)
  {
    steps := [Login(7, "a", 100), RefreshLookup("a", 0), RefreshLookup("a", 0),
              RefreshWrite(1, "b", 1, 100), RefreshWrite(2, "c", 1, 100)];
    states := RunExists(steps);
    var a, b := NewSession(7, "a", 100), NewSession(7, "b", 100);
    var used := a.(revokedAt := Some(1), replacedBy := Some(1));
    BothLookupsSucceed(a);
    var s3 := State([a], 3, map[1 := RefreshOf(0), 2 := RefreshOf(0)], [0], [0], [0]);
    assert states[1] == Next(INIT, steps[0]) && states[2] == Next(states[1], steps[1]);
    assert states[3] == Next(states[2], steps[2]) == s3;
    FirstWrite(a, b, used, s3);
    assert states[4] == Next(s3, steps[3]);
    SecondWrite(used, b, states[4]);
    assert states[5] == Next(states[4], steps[4]);
    LiveSessionsConserved(states, steps, 5, 0);
    SecondLivesOn(states[5].sessions, states[5].root, b);
  }

  lemma SecondLivesOn(t: seq<Session>, root: seq<int>, b: Session)
    requires |t| == 3 && root == [0, 0, 0] && t[1] == b && b.revokedAt.None?
    ensures !OnlyLastLive(t, root)
  {
    assert root[1] == root[2];
  }

  lemma BothLookupsSucceed(a: Session)
    requires a == NewSession(7, "a", 100)
    ensures var s1 := State([a], 1, map[], [0], [0], [0]);
            var s2 := s1.(time := 2, pending := map[1 := RefreshOf(0)]);
            && Next(INIT, Login(7, "a", 100)) == s1 && Next(s1, RefreshLookup("a", 0)) == s2
            && Next(s2, RefreshLookup("a", 0)) == s2.(time := 3, pending := map[1 := RefreshOf(0), 2 := RefreshOf(0)])
  {
  }

  lemma FirstWrite(a: Session, b: Session, used: Session, s: State)
    requires a == NewSession(7, "a", 100) && b == NewSession(7, "b", 100)
    requires used == a.(revokedAt := Some(1), replacedBy := Some(1))
    requires s == State([a], 3, map[1 := RefreshOf(0), 2 := RefreshOf(0)], [0], [0], [0])
    ensures Next(s, RefreshWrite(1, "b", 1, 100)) == State([used, b], 4, map[2 := RefreshOf(0)], [0, 0], [0, 0], [0, 0])
  {
  }

  lemma SecondWrite(used: Session, b: Session, s: State)
    requires b == NewSession(7, "b", 100) && used.hash == "a" && used.user == 7 && used.revokedAt.Some?
    requires s == State([used, b], 4, map[2 := RefreshOf(0)], [0, 0], [0, 0], [0, 0])
    ensures var t := Next(s, RefreshWrite(2, "c", 1, 100));
            t.sessions == [used, b, NewSession(7, "c", 100)] && t.root == [0, 0, 0] &&
            t.misses == [1, 0, 0] && t.logouts == [0, 0, 0]
  {
  }
}
