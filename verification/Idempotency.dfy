/** Idempotency keys: an atomic claim per key, replay of completed responses, and what any
    interleaving of clients can observe. Times are seconds; request hashes are opaque. */
module Idempotency {
  import opened Common

  type Key = string
  type Client = nat

  datatype Outcome = InProgress | Completed(code: int, body: string)

  datatype Record = Record(hash: string, outcome: Outcome, created: int, expires: int)

  datatype Claim = Claimed | Replay(code: int, body: string) | Busy | Mismatch

  predicate Live(records: map<Key, Record>, key: Key, now: int) {
    key in records && records[key].expires >= now
  }

  /** What `claim_or_get` answers. */
  function Answer(records: map<Key, Record>, key: Key, hash: string, now: int): Claim {
    if !Live(records, key, now) then Claimed
    else if records[key].hash != hash then Mismatch
    else match records[key].outcome
      case InProgress => Busy
      case Completed(code, body) => Replay(code, body)
  }

  function AfterClaim(records: map<Key, Record>, key: Key, hash: string, now: int, ttl: int): map<Key, Record> {
    if Live(records, key, now) then records else records[key := Record(hash, InProgress, now, now + ttl)]
  }

  function AfterCompletion(records: map<Key, Record>, key: Key, code: int, body: string): map<Key, Record> {
    if key in records then records[key := records[key].(outcome := Completed(code, body))] else records
  }

  function AfterCleanup(records: map<Key, Record>, now: int): map<Key, Record> {
    map k | k in records && records[k].expires >= now :: records[k]
  }

  // ---- the key syntax ----

  predicate KeyChar(c: char) {
    'a' <= c <= 'z' || 'A' <= c <= 'Z' || '0' <= c <= '9' || c == '_' || c == '-' || c == '.'
  }

  predicate KeyBody(s: string) {
    1 <= |s| <= 128 && forall i :: 0 <= i < |s| ==> KeyChar(s[i])
  }

  /** The pattern ends in `$`, which also accepts one newline after the last character. */
  predicate ValidKey(s: string) {
    KeyBody(s) || (s != "" && s[|s| - 1] == '\n' && KeyBody(s[..|s| - 1]))
  }

  /** A key of 1 to 128 letters, digits, underscores, dashes and periods, or such a key and a newline. */
  lemma KeySyntax(s: string)
    ensures ValidKey(s) <==>
              var n := if s != "" && s[|s| - 1] == '\n' then |s| - 1 else |s|;
              && 1 <= n <= 128
              && forall i :: 0 <= i < n ==>
                   var c := s[i] as int;
                   97 <= c <= 122 || 65 <= c <= 90 || 48 <= c <= 57 || s[i] in {'_', '-', '.'}
  {
    if s != "" && s[|s| - 1] == '\n' {
      assert !KeyChar(s[|s| - 1]);
      assert forall i :: 0 <= i < |s| - 1 ==> s[..|s| - 1][i] == s[i];
    }
  }

  datatype Response =
    | Executed(body: string)
    | Replayed(code: int, body: string)
    | Conflict
    | Unprocessable
    | BadKey
    | Raised

  function ResponseTo(claim: Claim, result: Option<string>): Response {
    match claim
    case Replay(code, body) => Replayed(if code == 0 then 200 else code, body)
    case Busy => Conflict
    case Mismatch => Unprocessable
    case Claimed => if result.Some? then Executed(result.value) else Raised
  }

  /** The HTTP status the caller sees; what a command raises is passed on. */
  function HttpStatus(r: Response): Option<int> {
    match r
    case Executed(_) => Some(200)
    case Replayed(code, _) => Some(code)
    case Conflict => Some(409)
    case Unprocessable => Some(422)
    case BadKey => Some(400)
    case Raised => None
  }

  /** A request that meets an unexpired record is answered 422 if it differs from the recorded one, 409 if it is the
      same and still running, and with the stored response if it has completed, under 200 if that has no status; any
      other request executes. */
  lemma AnsweredExactly(records: map<Key, Record>, key: Key, hash: string, now: int, result: Option<string>)
    ensures var r := ResponseTo(Answer(records, key, hash, now), result);
            if key !in records || records[key].expires < now then
              r == (if result.Some? then Executed(result.value) else Raised)
            else
              && (HttpStatus(r) == Some(422) && r.Unprocessable? <==> records[key].hash != hash)
              && (HttpStatus(r) == Some(409) && r.Conflict? <==> records[key].hash == hash && records[key].outcome == InProgress)
              && (records[key].hash == hash && records[key].outcome.Completed? ==>
                    && r.Replayed? && r.body == records[key].outcome.body
                    && HttpStatus(r) == Some(if records[key].outcome.code == 0 then 200 else records[key].outcome.code))
  {
  }

  lemma CardinalityOfSubset<T>(a: set<T>, b: set<T>)
    requires a <= b
    ensures |a| <= |b|
  {
    assert b == a + (b - a);
  }

  class IdempotencyRepository {
    var records: map<Key, Record>

    constructor ()
      ensures records == map[]
    {
      records := map[];
    }

    method ClaimOrGet(key: Key, hash: string, now: int, ttl: int) returns (claim: Claim)
      modifies this
      ensures claim == Answer(old(records), key, hash, now)
      ensures records == AfterClaim(old(records), key, hash, now, ttl)
    {
      if key in records {
        var row := records[key];
        if row.expires < now {
          records := records - {key};
        } else {
          if row.hash != hash {
            return Mismatch;
          }
          if row.outcome.Completed? {
            return Replay(row.outcome.code, row.outcome.body);
          }
          return Busy;
        }
      }
      records := records[key := Record(hash, InProgress, now, now + ttl)];
      return Claimed;
    }

    method SaveCompletion(key: Key, code: int, body: string)
      modifies this
      ensures records == AfterCompletion(old(records), key, code, body)
    {
      if key in records {
        records := records[key := records[key].(outcome := Completed(code, body))];
      }
    }

    method ReleaseClaim(key: Key)
      modifies this
      ensures records == old(records) - {key}
    {
      records := records - {key};
    }

    method CleanupExpired(now: int) returns (deleted: nat)
      modifies this
      ensures records == AfterCleanup(old(records), now)
      ensures deleted == |old(records)| - |records|
    {
      var kept := map k | k in records && records[k].expires >= now :: records[k];
      CardinalityOfSubset(kept.Keys, records.Keys);
      deleted := |records| - |kept|;
      records := kept;
    }

    /** One command with nothing interleaved; `result` is what the command returns, None if it raises. */
    method ExecuteIdempotentCommand(key: Option<Key>, hash: string, now: int, ttl: int, result: Option<string>)
        returns (response: Response)
      modifies this
      ensures key == None || key == Some("") ==>
                records == old(records) && response == if result.Some? then Executed(result.value) else Raised
      ensures key.Some? && key.value != "" && !ValidKey(key.value) ==> records == old(records) && response == BadKey
      ensures key.Some? && ValidKey(key.value) && Live(old(records), key.value, now) ==>
                && records == old(records)
                && response == ResponseTo(Answer(old(records), key.value, hash, now), result)
      ensures key.Some? && ValidKey(key.value) && !Live(old(records), key.value, now) ==>
                && response == (if result.Some? then Executed(result.value) else Raised)
                && records == if result.Some?
                              then old(records)[key.value := Record(hash, Completed(200, result.value), now, now + ttl)]
                              else old(records) - {key.value}
    {
      if key == None || key.value == "" {
        return if result.Some? then Executed(result.value) else Raised;
      }
      if !ValidKey(key.value) {
        return BadKey;
      }
      var claim := ClaimOrGet(key.value, hash, now, ttl);
      match claim
      case Replay(code, body) => return Replayed(if code == 0 then 200 else code, body);
      case Busy => return Conflict;
      case Mismatch => return Unprocessable;
      case Claimed =>
        if result == None {
          ReleaseClaim(key.value);
          return Raised;
        }
        SaveCompletion(key.value, 200, result.value);
        return Executed(result.value);
    }
  }

  // ---- any interleaving of clients ----

  /** A client between its claim and its completion or release. Claims are numbered as they are
      granted; the source does not record the number. */
  datatype Run = Run(key: Key, hash: string, deadline: int, claim: nat)

  /** `latest` holds the number of the last claim granted for each key: the one that made the
      record stored under it, if there is one. */
  datatype World = World(
    records: map<Key, Record>,
    running: map<Client, Run>,
    now: int,
    latest: map<Key, nat>,
    granted: nat)

  datatype Step =
    | Tick(now: int)
    | Request(client: Client, key: Key, hash: string, ttl: nat)
    | Finish(client: Client, code: int, body: string)
    | Fail(client: Client)
    | Vanish(client: Client)
    | Cleanup

  predicate Enabled(w: World, s: Step) {
    match s
    case Tick(t) => t >= w.now
    case Request(c, _, _, _) => c !in w.running
    case Finish(c, _, _) => c in w.running
    case Fail(c) => c in w.running
    case Vanish(c) => c in w.running
    case Cleanup => true
  }

  function Next(w: World, s: Step): World
    requires Enabled(w, s)
  {
    match s
    case Tick(t) => w.(now := t)
    case Request(c, key, hash, ttl) =>
      var records := AfterClaim(w.records, key, hash, w.now, ttl);
      if Answer(w.records, key, hash, w.now) == Claimed then
        World(records, w.running[c := Run(key, hash, w.now + ttl, w.granted)], w.now,
              w.latest[key := w.granted], w.granted + 1)
      else w.(records := records)
    case Finish(c, code, body) =>
      w.(records := AfterCompletion(w.records, w.running[c].key, code, body), running := w.running - {c})
    case Fail(c) => w.(records := w.records - {w.running[c].key}, running := w.running - {c})
    case Vanish(c) => w.(running := w.running - {c})
    case Cleanup => w.(records := AfterCleanup(w.records, w.now))
  }

  ghost function After(w: World, steps: seq<Step>): World
    requires Reaches(w, steps)
    decreases |steps|, 1
  {
    if steps == [] then w else Next(After(w, steps[..|steps| - 1]), steps[|steps| - 1])
  }

  ghost predicate Reaches(w: World, steps: seq<Step>)
    decreases |steps|, 0
  {
    steps == [] || (Reaches(w, steps[..|steps| - 1]) && Enabled(After(w, steps[..|steps| - 1]), steps[|steps| - 1]))
  }

  lemma Extend(w: World, steps: seq<Step>, s: Step)
    requires Reaches(w, steps) && Enabled(After(w, steps), s)
    ensures Reaches(w, steps + [s]) && After(w, steps + [s]) == Next(After(w, steps), s)
  {
    assert (steps + [s])[..|steps|] == steps;
  }

  const START := World(map[], map[], 0, map[], 0)

  ghost predicate Overdue(w: World, c: Client)
    requires c in w.running
  {
    w.running[c].deadline < w.now
  }

  // ---- when two executions under one key overlap ----

  ghost predicate Overlapping(w: World) {
    exists c, d :: c in w.running && d in w.running && c != d && w.running[c].key == w.running[d].key
  }

  ghost predicate NeverOverlaps(w: World, steps: seq<Step>)
    requires Reaches(w, steps)
  {
    !Overlapping(After(w, steps)) && (steps == [] || NeverOverlaps(w, steps[..|steps| - 1]))
  }

  /** A request for a key whose running command has outlived its claim. */
  ghost predicate MeetsOverdue(w: World, s: Step) {
    s.Request? && exists d :: d in w.running && w.running[d].key == s.key && Overdue(w, d)
  }

  ghost predicate NeverMeetsOverdue(w: World, steps: seq<Step>)
    requires Reaches(w, steps)
  {
    steps == [] || (NeverMeetsOverdue(w, steps[..|steps| - 1]) && !MeetsOverdue(After(w, steps[..|steps| - 1]), steps[|steps| - 1]))
  }

  /** As long as nothing has overlapped, whatever is stored under the key of a running command is
      its own claim, and it is gone only if the command is overdue. */
  ghost predicate Guarded(w: World) {
    && (forall c :: c in w.running ==>
          var r := w.running[c];
          if r.key in w.records
          then w.records[r.key] == Record(r.hash, InProgress, w.records[r.key].created, r.deadline)
          else Overdue(w, c))
    && !Overlapping(w)
  }

  lemma StepKeepsGuarded(w: World, s: Step)
    requires Enabled(w, s) && Guarded(w)
    ensures Overlapping(Next(w, s)) <==> MeetsOverdue(w, s)
    ensures !Overlapping(Next(w, s)) ==> Guarded(Next(w, s))
  {
    var w' := Next(w, s);
    if s.Request? && MeetsOverdue(w, s) {
      var d :| d in w.running && w.running[d].key == s.key && Overdue(w, d);
      assert s.client in w'.running && d in w'.running && w'.running[s.client].key == w'.running[d].key;
    }
  }

  lemma {:induction false} GuardedAlongRun(steps: seq<Step>)
    requires Reaches(START, steps)
    ensures NeverOverlaps(START, steps) <==> NeverMeetsOverdue(START, steps)
    ensures NeverOverlaps(START, steps) ==> Guarded(After(START, steps))
  {
    if steps != [] {
      var before := steps[..|steps| - 1];
      GuardedAlongRun(before);
      if NeverOverlaps(START, before) {
        StepKeepsGuarded(After(START, before), steps[|steps| - 1]);
      }
    }
  }

  /** In every run, two executions under one key never overlap exactly when no request ever meets a
      running command of its key that has outlived its claim. */
  lemma OverlapNeedsOverdue(steps: seq<Step>)
    requires Reaches(START, steps)
    ensures NeverOverlaps(START, steps) <==> NeverMeetsOverdue(START, steps)
  {
    GuardedAlongRun(steps);
  }

  /** Every running command is still within the life of its claim. */
  ghost predicate InTime(w: World) {
    forall c :: c in w.running ==> !Overdue(w, c)
  }

  /** No state of the run has an overdue command. */
  ghost predicate AlwaysInTime(w: World, steps: seq<Step>)
    requires Reaches(w, steps)
  {
    InTime(After(w, steps)) && (steps == [] || AlwaysInTime(w, steps[..|steps| - 1]))
  }

  /** Each running client holds the claim it made, and no other client runs under its key. */
  ghost predicate Exclusive(w: World) {
    && (forall c :: c in w.running ==>
          var r := w.running[c];
          r.key in w.records && w.records[r.key].outcome == InProgress
          && w.records[r.key].hash == r.hash && w.records[r.key].expires == r.deadline)
    && !Overlapping(w)
  }

  lemma StepKeepsExclusive(w: World, s: Step)
    requires Enabled(w, s) && Exclusive(w) && InTime(w)
    ensures Exclusive(Next(w, s))
  {
    StepKeepsGuarded(w, s);
  }

  /** In every in-time run no two executions under one key overlap. */
  lemma {:induction false} ExecutionsNeverOverlap(steps: seq<Step>)
    requires Reaches(START, steps) && (steps != [] ==> AlwaysInTime(START, steps[..|steps| - 1]))
    ensures Exclusive(After(START, steps)) && NeverOverlaps(START, steps)
  {
    if steps != [] {
      var before := steps[..|steps| - 1];
      ExecutionsNeverOverlap(before);
      StepKeepsExclusive(After(START, before), steps[|steps| - 1]);
    }
  }

  // ---- whose record a completion or a release touches ----

  /** The record under the client's key is the one its own claim made. */
  ghost predicate Owns(w: World, c: Client)
    requires c in w.running
  {
    var r := w.running[c];
    r.key in w.records && r.key in w.latest && w.latest[r.key] == r.claim
  }

  /** The client's key was granted to another claim after its own. */
  ghost predicate Reclaimed(w: World, c: Client)
    requires c in w.running
  {
    w.running[c].key in w.latest && w.latest[w.running[c].key] > w.running[c].claim
  }

  /** A completion or a release of a record that another claim made. */
  ghost predicate Strays(w: World, s: Step) {
    && (s.Finish? || s.Fail?) && s.client in w.running
    && w.running[s.client].key in w.records && !Owns(w, s.client)
  }

  ghost predicate NeverStrays(w: World, steps: seq<Step>)
    requires Reaches(w, steps)
  {
    steps == [] || (NeverStrays(w, steps[..|steps| - 1]) && !Strays(After(w, steps[..|steps| - 1]), steps[|steps| - 1]))
  }

  /** A release that deletes the record of claim `claim`, which is another client's. */
  ghost predicate Robs(w: World, s: Step, claim: nat) {
    s.Fail? && Strays(w, s) && w.running[s.client].key in w.latest && w.latest[w.running[s.client].key] == claim
  }

  ghost predicate Robbed(w: World, steps: seq<Step>, claim: nat)
    requires Reaches(w, steps)
  {
    steps != [] && (Robbed(w, steps[..|steps| - 1], claim) || Robs(After(w, steps[..|steps| - 1]), steps[|steps| - 1], claim))
  }

  /** The claim of a running client was made for its key, and not after the key's last claim. */
  ghost predicate ClaimOf(w: World, c: Client) {
    c in w.running ==>
      var r := w.running[c];
      && r.key in w.latest && r.claim <= w.latest[r.key] < w.granted
      && forall k :: k in w.latest && w.latest[k] == r.claim ==> k == r.key
  }

  /** Claim numbers are given out in order, and no two running clients share one. */
  ghost predicate Numbered(w: World, c: Client, d: Client) {
    && (forall k :: k in w.latest ==> w.latest[k] < w.granted)
    && ClaimOf(w, c) && ClaimOf(w, d)
    && (c in w.running && d in w.running && c != d ==> w.running[c].claim != w.running[d].claim)
  }

  lemma GrantKeepsNumbered(w: World, s: Step, c: Client, d: Client)
    requires s.Request? && Enabled(w, s) && Numbered(w, c, d)
    ensures Numbered(Next(w, s), c, d)
  {
    if s.client in Next(w, s).running {
      assert Next(w, s).latest == w.latest[s.key := w.granted];
    } else {
      assert Next(w, s) == w;
    }
  }

  lemma StepKeepsNumbered(w: World, s: Step, c: Client, d: Client)
    requires Enabled(w, s) && Numbered(w, c, d)
    ensures Numbered(Next(w, s), c, d)
  {
    if s.Request? {
      GrantKeepsNumbered(w, s, c, d);
    } else {
      assert Next(w, s).latest == w.latest && Next(w, s).granted == w.granted;
    }
  }

  /** Whatever is stored was stored by the last grant of its key. */
  ghost predicate Stored(w: World, c: Client) {
    && w.records.Keys <= w.latest.Keys
    && (c in w.running && Owns(w, c) ==> w.records[w.running[c].key].expires == w.running[c].deadline)
  }

  lemma GrantKeepsStored(w: World, s: Step, c: Client)
    requires s.Request? && Enabled(w, s) && Numbered(w, c, c) && Stored(w, c)
    ensures Stored(Next(w, s), c)
  {
    if s.client in Next(w, s).running {
      assert Next(w, s).latest == w.latest[s.key := w.granted];
      assert Next(w, s).records == w.records[s.key := Record(s.hash, InProgress, w.now, w.now + s.ttl)];
    } else {
      assert Next(w, s) == w;
    }
  }

  lemma StepKeepsStored(w: World, s: Step, c: Client)
    requires Enabled(w, s) && Numbered(w, c, c) && Stored(w, c)
    ensures Stored(Next(w, s), c)
  {
    if s.Request? {
      GrantKeepsStored(w, s, c);
    } else {
      assert Next(w, s).latest == w.latest && Next(w, s).records.Keys <= w.records.Keys;
    }
  }

  /** A running command has lost its claim exactly when it was robbed of it, unless it is overdue. */
  ghost predicate KeptUnlessRobbed(w: World, c: Client, robbed: bool) {
    c in w.running ==> (robbed ==> !Owns(w, c)) && (!robbed ==> Owns(w, c) || Overdue(w, c))
  }

  lemma StepKeepsClaim(w: World, s: Step, c: Client, robbed: bool)
    requires Enabled(w, s) && Numbered(w, c, if s.Fail? then s.client else c)
    requires Stored(w, c) && c in w.running && KeptUnlessRobbed(w, c, robbed)
    ensures KeptUnlessRobbed(Next(w, s), c, robbed || Robs(w, s, w.running[c].claim))
    ensures c in Next(w, s).running ==> Next(w, s).running[c] == w.running[c]
  {
    var g := w.running[c].claim;
    match s
    case Request(_, _, _, _) => assert !Robs(w, s, g);
    case Finish(_, _, _) => assert !Robs(w, s, g);
    case Fail(d) => assert Robs(w, s, g) && c != d ==> w.running[d].key == w.running[c].key;
    case Tick(_) => assert !Robs(w, s, g);
    case Vanish(_) => assert !Robs(w, s, g);
    case Cleanup => assert !Robs(w, s, g);
  }

  lemma GrantOwns(w: World, s: Step, c: Client)
    requires Enabled(w, s) && c !in w.running && c in Next(w, s).running
    ensures Next(w, s).running[c].claim == w.granted && Owns(Next(w, s), c) && s.Request?
  {
  }

  lemma {:induction false} NumberedAlongRun(steps: seq<Step>, c: Client, d: Client)
    requires Reaches(START, steps)
    ensures Numbered(After(START, steps), c, d)
  {
    if steps != [] {
      NumberedAlongRun(steps[..|steps| - 1], c, d);
      StepKeepsNumbered(After(START, steps[..|steps| - 1]), steps[|steps| - 1], c, d);
    }
  }

  /** Claims not granted yet have not been robbed. */
  lemma {:induction false} UngrantedIsNotRobbed(steps: seq<Step>, claim: nat)
    requires Reaches(START, steps) && claim >= After(START, steps).granted
    ensures !Robbed(START, steps, claim)
  {
    if steps != [] {
      UngrantedIsNotRobbed(steps[..|steps| - 1], claim);
      NumberedAlongRun(steps[..|steps| - 1], 0, 0);
    }
  }

  lemma {:induction false} ClaimAlongRun(steps: seq<Step>, c: Client)
    requires Reaches(START, steps)
    ensures Stored(After(START, steps), c)
    ensures c in After(START, steps).running ==>
              KeptUnlessRobbed(After(START, steps), c, Robbed(START, steps, After(START, steps).running[c].claim))
  {
    if steps != [] {
      var before, last := steps[..|steps| - 1], steps[|steps| - 1];
      var w := After(START, before);
      ClaimAlongRun(before, c);
      NumberedAlongRun(before, c, c);
      StepKeepsStored(w, last, c);
      if c in w.running {
        NumberedAlongRun(before, c, if last.Fail? then last.client else c);
        StepKeepsClaim(w, last, c, Robbed(START, before, w.running[c].claim));
      } else if c in Next(w, last).running {
        GrantOwns(w, last, c);
        UngrantedIsNotRobbed(before, w.granted);
      }
    }
  }

  /** In every run, overlaps and strays included: a command within its time still owns its record
      exactly when no other client's release deleted it, and then no request under its key is granted. */
  lemma InTimeOwnsUnlessRobbed(steps: seq<Step>, c: Client, hash: string)
    requires Reaches(START, steps) && c in After(START, steps).running && !Overdue(After(START, steps), c)
    ensures var w := After(START, steps);
            && (Owns(w, c) <==> !Robbed(START, steps, w.running[c].claim))
            && (Owns(w, c) ==> Answer(w.records, w.running[c].key, hash, w.now) != Claimed)
  {
    ClaimAlongRun(steps, c);
  }

  lemma {:induction false} NeverStraysNeverRobs(steps: seq<Step>, claim: nat)
    requires Reaches(START, steps) && NeverStrays(START, steps)
    ensures !Robbed(START, steps, claim)
  {
    if steps != [] {
      NeverStraysNeverRobs(steps[..|steps| - 1], claim);
    }
  }

  /** In every run, a completion or release lands on another client's record exactly when its key was
      claimed again since and that record is still there. */
  lemma StrayExactlyWhenReclaimed(steps: seq<Step>, s: Step)
    requires Reaches(START, steps) && (s.Finish? || s.Fail?) && s.client in After(START, steps).running
    ensures var w := After(START, steps);
            && (Strays(w, s) <==> w.running[s.client].key in w.records && Reclaimed(w, s.client))
            && (NeverStrays(START, steps) && Strays(w, s) ==> Overdue(w, s.client))
  {
    ClaimAlongRun(steps, s.client);
    NumberedAlongRun(steps, s.client, s.client);
    if NeverStrays(START, steps) {
      NeverStraysNeverRobs(steps, After(START, steps).running[s.client].claim);
    }
  }

  /** Nothing is claimed again while its command runs, unless executions overlap. */
  lemma StepKeepsUnclaimed(w: World, s: Step, c: Client)
    requires Enabled(w, s) && Numbered(w, c, c) && (c in w.running ==> !Reclaimed(w, c))
    ensures c in Next(w, s).running ==> !Reclaimed(Next(w, s), c) || Overlapping(Next(w, s))
  {
    var w' := Next(w, s);
    if c in w.running && s.Request? && s.client in w'.running && w'.running[s.client].key == w'.running[c].key {
      assert Overlapping(w');
    }
  }

  lemma {:induction false} UnclaimedAlongRun(steps: seq<Step>, c: Client)
    requires Reaches(START, steps) && NeverOverlaps(START, steps)
    ensures c in After(START, steps).running ==> !Reclaimed(After(START, steps), c)
  {
    if steps != [] {
      UnclaimedAlongRun(steps[..|steps| - 1], c);
      NumberedAlongRun(steps[..|steps| - 1], c, c);
      StepKeepsUnclaimed(After(START, steps[..|steps| - 1]), steps[|steps| - 1], c);
    }
  }

  /** Nothing strays up to the first overlap. */
  lemma {:induction false} StrayNeedsOverlap(steps: seq<Step>)
    requires Reaches(START, steps) && (steps != [] ==> NeverOverlaps(START, steps[..|steps| - 1]))
    ensures NeverStrays(START, steps)
  {
    if steps != [] {
      var before, last := steps[..|steps| - 1], steps[|steps| - 1];
      StrayNeedsOverlap(before);
      if last.Finish? || last.Fail? {
        UnclaimedAlongRun(before, last.client);
        StrayExactlyWhenReclaimed(before, last);
      }
    }
  }

  // ---- a completed response is final until it expires ----

  ghost predicate Finished(w: World, key: Key, hash: string, code: int, body: string, expires: int) {
    && key in w.records && w.records[key].hash == hash && w.records[key].expires == expires
    && w.records[key].outcome == Completed(code, body)
    && forall c :: c in w.running ==> w.running[c].key != key
  }

  lemma StepKeepsFinished(w: World, s: Step, key: Key, hash: string, code: int, body: string, expires: int)
    requires Enabled(w, s) && w.now <= expires && Finished(w, key, hash, code, body, expires)
    ensures Finished(Next(w, s), key, hash, code, body, expires)
  {
    assert Live(w.records, key, w.now);
  }

  lemma ClockNeverGoesBack(w: World, steps: seq<Step>)
    requires Reaches(w, steps) && steps != []
    ensures After(w, steps[..|steps| - 1]).now <= After(w, steps).now
  {
  }

  lemma {:induction false} FinishedIsFinal(w: World, steps: seq<Step>, key: Key, hash: string, code: int, body: string, expires: int)
    requires Reaches(w, steps) && Finished(w, key, hash, code, body, expires)
    requires steps != [] ==> After(w, steps[..|steps| - 1]).now <= expires
    ensures Finished(After(w, steps), key, hash, code, body, expires)
  {
    if steps != [] {
      var before := steps[..|steps| - 1];
      if before != [] {
        ClockNeverGoesBack(w, before);
      }
      FinishedIsFinal(w, before, key, hash, code, body, expires);
      StepKeepsFinished(After(w, before), steps[|steps| - 1], key, hash, code, body, expires);
    }
  }

  lemma AlwaysBefore(w: World, steps: seq<Step>)
    requires Reaches(w, steps) && AlwaysInTime(w, steps)
    ensures steps != [] ==> AlwaysInTime(w, steps[..|steps| - 1])
  {
  }

  /** After a command completes in time, every later request under its key until the expiry gets
      the stored response if its hash is the same and a mismatch if not; none of them executes or
      changes the record, whatever happens in between. */
  lemma CompletedIsReplayed(steps: seq<Step>, c: Client, code: int, body: string, more: seq<Step>, other: string)
    requires Reaches(START, steps) && AlwaysInTime(START, steps) && c in After(START, steps).running
    requires var w := Next(After(START, steps), Finish(c, code, body)); Reaches(w, more)
    requires var w := Next(After(START, steps), Finish(c, code, body));
             After(w, more).now <= After(START, steps).running[c].deadline
    ensures var r := After(START, steps).running[c];
            var w := After(Next(After(START, steps), Finish(c, code, body)), more);
            && Finished(w, r.key, r.hash, code, body, r.deadline)
            && Answer(w.records, r.key, r.hash, w.now) == Replay(code, body)
            && (other != r.hash ==> Answer(w.records, r.key, other, w.now) == Mismatch)
            && (forall ttl :: AfterClaim(w.records, r.key, other, w.now, ttl) == w.records)
  {
    var before := After(START, steps);
    var r := before.running[c];
    ExecutionsNeverOverlap(steps) by { AlwaysBefore(START, steps); }
    var w := Next(before, Finish(c, code, body));
    assert Finished(w, r.key, r.hash, code, body, r.deadline);
    if more != [] {
      ClockNeverGoesBack(w, more);
    }
    FinishedIsFinal(w, more, r.key, r.hash, code, body, r.deadline);
  }

  /** A key that was released, never used, or has expired can be claimed by any request. */
  lemma FreeKeyIsClaimable(w: World, c: Client, key: Key, hash: string, ttl: nat)
    requires c !in w.running
    ensures !Live(w.records, key, w.now) <==>
              (var w' := Next(w, Request(c, key, hash, ttl));
               c in w'.running && w'.running[c] == Run(key, hash, w.now + ttl, w.granted))
    ensures forall d :: d in w.running && w.running[d].key == key ==> !Live(Next(w, Fail(d)).records, key, w.now)
  {
  }

  // ---- what overdue commands do ----

  /** Client 0 outlives its claim and client 1 claims the key again. */
  lemma Overdrawn(key: Key, h: string, h': string) returns (steps: seq<Step>)
    ensures Reaches(START, steps)
    ensures var w := After(START, steps);
            && w.records == map[key := Record(h', InProgress, 11, 21)] && w.now == 11
            && w.running == map[0 := Run(key, h, 10, 0), 1 := Run(key, h', 21, 1)]
            && w.latest == map[key := 1] && w.granted == 2
  {
    Extend(START, [], Request(0, key, h, 10));
    steps := [] + [Request(0, key, h, 10)];
    assert After(START, steps) == World(map[key := Record(h, InProgress, 0, 10)], map[0 := Run(key, h, 10, 0)], 0, map[key := 0], 1);
    Extend(START, steps, Tick(11));
    steps := steps + [Tick(11)];
    Extend(START, steps, Request(1, key, h', 10));
    steps := steps + [Request(1, key, h', 10)];
  }

  /** An overdue completion lands on the record of the client that claimed the expired key, which then
      replays a response that client's own command never gave. */
  lemma OverdueCompletionIsMisattributed(key: Key, h: string, h': string, body: string)
    ensures exists steps: seq<Step> :: Reaches(START, steps)
              && (var w := After(START, steps);
                  1 in w.running && w.running[1].hash == h'
                  && Answer(w.records, key, h', w.now) == Replay(200, body))
  {
    var steps := Overdrawn(key, h, h');
    Extend(START, steps, Finish(0, 200, body));
    var w := After(START, steps + [Finish(0, 200, body)]);
    assert w.running[1].hash == h' && Live(w.records, key, w.now);
  }

  /** After a first overlap a second one needs nobody overdue: the overdue client's release deletes the
      record of a command that is in time, the next request is granted, and the completion of the
      command that was in time all along lands on the newcomer's record. */
  lemma OverdueReleaseSpreads(key: Key, h: string, h': string, h'': string, code: int, body: string)
    ensures exists steps: seq<Step> :: Reaches(START, steps)
              && (var w := After(START, steps);
                  && InTime(w) && 1 in w.running && 2 !in w.running && w.running[1].key == key
                  && Answer(w.records, key, h'', w.now) == Claimed
                  && Overlapping(Next(w, Request(2, key, h'', 10))) && InTime(Next(w, Request(2, key, h'', 10)))
                  && Strays(Next(w, Request(2, key, h'', 10)), Finish(1, code, body)))
  {
    var steps := Overdrawn(key, h, h');
    Extend(START, steps, Fail(0));
    var w := After(START, steps + [Fail(0)]);
    assert w.running == map[1 := Run(key, h', 21, 1)] && w.records == map[];
    var w' := Next(w, Request(2, key, h'', 10));
    assert w'.running[1].key == w'.running[2].key == key;
    assert w'.latest[key] == 2 && key in w'.records;
  }
}
