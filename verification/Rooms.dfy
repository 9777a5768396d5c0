/** Two-user chat rooms over two insert-if-absent tables (chat/message-writer/internal/db/store.go). */
module Rooms {
  import opened Common

  // ---------------------------------------------------------------- participants

  predicate IsSpace(c: char) {
    || '\t' <= c <= '\r' || c == ' ' || c == '\U{85}' || c == '\U{A0}' || c == '\U{1680}'
    || '\U{2000}' <= c <= '\U{200A}' || c == '\U{2028}' || c == '\U{2029}' || c == '\U{202F}'
    || c == '\U{205F}' || c == '\U{3000}'
  }

  function TrimLeft(s: string): string {
    if s != "" && IsSpace(s[0]) then TrimLeft(s[1..]) else s
  }

  function TrimRight(s: string): string {
    if s != "" && IsSpace(s[|s| - 1]) then TrimRight(s[..|s| - 1]) else s
  }

  function TrimSpace(s: string): string {
    TrimRight(TrimLeft(s))
  }

  predicate Blank(s: string) {
    forall i :: 0 <= i < |s| ==> IsSpace(s[i])
  }

  /** `t` is `s` without some blank text at either end, and has no more to lose. */
  ghost predicate Trims(s: string, t: string) {
    && (t == "" || (!IsSpace(t[0]) && !IsSpace(t[|t| - 1])))
    && exists left, right :: Blank(left) && Blank(right) && s == left + t + right
  }

  lemma {:induction false} TrimLeftOf(left: string, rest: string)
    requires Blank(left) && (rest == "" || !IsSpace(rest[0]))
    ensures TrimLeft(left + rest) == rest
  {
    if left == "" {
      assert left + rest == rest;
    } else {
      assert (left + rest)[1..] == left[1..] + rest;
      TrimLeftOf(left[1..], rest);
    }
  }

  lemma {:induction false} TrimRightOf(rest: string, right: string)
    requires Blank(right) && (rest == "" || !IsSpace(rest[|rest| - 1]))
    ensures TrimRight(rest + right) == rest
    decreases |right|
  {
    if right == "" {
      assert rest + right == rest;
    } else {
      var n := |right| - 1;
      assert (rest + right)[..|rest + right| - 1] == rest + right[..n];
      TrimRightOf(rest, right[..n]);
    }
  }

  lemma {:induction false} TrimLeftSplits(s: string) returns (left: string)
    ensures Blank(left) && s == left + TrimLeft(s)
    ensures TrimLeft(s) == "" || !IsSpace(TrimLeft(s)[0])
  {
    left := "";
    if s != "" && IsSpace(s[0]) {
      left := TrimLeftSplits(s[1..]);
      left := [s[0]] + left;
    }
  }

  lemma {:induction false} TrimRightSplits(s: string) returns (right: string)
    ensures Blank(right) && s == TrimRight(s) + right
    ensures TrimRight(s) == "" || !IsSpace(TrimRight(s)[|TrimRight(s)| - 1])
  {
    right := "";
    if s != "" && IsSpace(s[|s| - 1]) {
      right := TrimRightSplits(s[..|s| - 1]);
      right := right + [s[|s| - 1]];
    }
  }

  /** Trimming removes the white space at both ends, all of it and nothing else. */
  lemma {:induction false} TrimSpaceIff(s: string, t: string)
    ensures Trims(s, t) <==> t == TrimSpace(s)
  {
    if Trims(s, t) {
      var left, right :| Blank(left) && Blank(right) && s == left + t + right;
      if t == "" {
        TrimLeftOf(left + right, "");
        assert s == left + right + "";
      } else {
        assert s == left + (t + right);
        TrimLeftOf(left, t + right);
        TrimRightOf(t, right);
      }
    }
    var left := TrimLeftSplits(s);
    var right := TrimRightSplits(TrimLeft(s));
    var u := TrimSpace(s);
    assert u != "" ==> u[0] == TrimLeft(s)[0];
    assert s == left + u + right;
  }

  lemma {:induction false} BlankIffTrimsToNothing(s: string)
    ensures Blank(s) <==> TrimSpace(s) == ""
  {
    TrimSpaceIff(s, "");
    if Blank(s) {
      assert Blank("") && s == s + "" + "";
    }
  }

  /** Lexicographic order. */
  predicate Less(a: string, b: string) {
    b != "" && (a == "" || a[0] < b[0] || (a[0] == b[0] && Less(a[1..], b[1..])))
  }

  datatype ParticipantError = IdsRequired | SameUser

  datatype Participants = Participants(userA: string, userB: string) {
    function Key(): string {
      userA + ":" + userB
    }
  }

  function Normalize(userId: string, peerId: string): Result<Participants, ParticipantError> {
    var u, p := TrimSpace(userId), TrimSpace(peerId);
    if u == "" || p == "" then Err(IdsRequired)
    else if u == p then Err(SameUser)
    else if Less(p, u) then Ok(Participants(p, u))
    else Ok(Participants(u, p))
  }

  lemma {:induction false} LessIsTotal(a: string, b: string)
    ensures a == b || Less(a, b) || Less(b, a)
    ensures !(Less(a, b) && Less(b, a))
    decreases |a|
  {
    if a != "" && b != "" && a[0] == b[0] {
      LessIsTotal(a[1..], b[1..]);
      assert a == [a[0]] + a[1..] && b == [b[0]] + b[1..];
    }
  }

  /** The first difference decides, and a proper prefix comes first. */
  lemma {:induction false} LessIff(a: string, b: string)
    ensures Less(a, b) <==>
      exists n :: 0 <= n <= |a| && n < |b| && a[..n] == b[..n] && (n == |a| || a[n] < b[n])
    decreases |a|
  {
    if Less(a, b) {
      if a == "" || a[0] < b[0] {
        assert a[..0] == b[..0];
      } else {
        LessIff(a[1..], b[1..]);
        var n :| 0 <= n <= |a[1..]| && n < |b[1..]| && a[1..][..n] == b[1..][..n] && (n == |a[1..]| || a[1..][n] < b[1..][n]);
        assert a[..n + 1] == [a[0]] + a[1..][..n] == b[..n + 1];
      }
    }
    if n :| 0 <= n <= |a| && n < |b| && a[..n] == b[..n] && (n == |a| || a[n] < b[n]) {
      if n > 0 {
        assert a[0] == a[..n][0] == b[..n][0] == b[0];
        assert a[1..][..n - 1] == a[..n][1..] == b[1..][..n - 1];
        assert n - 1 == |a[1..]| || a[1..][n - 1] < b[1..][n - 1];
        LessIff(a[1..], b[1..]);
      }
    }
  }

  /** The order of the checks: blank ids first, then equal ids; otherwise both trimmed ids, the smaller one first. */
  lemma {:induction false} NormalizeAnswers(userId: string, peerId: string)
    ensures Normalize(userId, peerId) == Err(IdsRequired) <==> Blank(userId) || Blank(peerId)
    ensures Normalize(userId, peerId) == Err(SameUser) <==>
      !Blank(userId) && exists t :: t != "" && Trims(userId, t) && Trims(peerId, t)
    ensures Normalize(userId, peerId).Ok? ==>
      var p := Normalize(userId, peerId).value;
      && Less(p.userA, p.userB)
      && ((Trims(userId, p.userA) && Trims(peerId, p.userB)) || (Trims(userId, p.userB) && Trims(peerId, p.userA)))
  {
    var u, p := TrimSpace(userId), TrimSpace(peerId);
    BlankIffTrimsToNothing(userId);
    BlankIffTrimsToNothing(peerId);
    LessIsTotal(u, p);
    TrimSpaceIff(userId, u);
    TrimSpaceIff(peerId, p);
    forall t | Trims(userId, t) && Trims(peerId, t)
      ensures t == u == p
    {
      TrimSpaceIff(userId, t);
      TrimSpaceIff(peerId, t);
    }
  }

  ghost function TrimmedPair(userId: string, peerId: string): set<string> {
    {TrimSpace(userId), TrimSpace(peerId)}
  }

  /** The participants are exactly the unordered pair of trimmed ids. */
  lemma {:induction false} NormalizeIsUnordered(u1: string, p1: string, u2: string, p2: string)
    requires Normalize(u1, p1).Ok? && Normalize(u2, p2).Ok?
    ensures Normalize(u1, p1) == Normalize(u2, p2) <==> TrimmedPair(u1, p1) == TrimmedPair(u2, p2)
    ensures TrimmedPair(u1, p1) == {Normalize(u1, p1).value.userA, Normalize(u1, p1).value.userB}
  {
    var a, b, c, d := TrimSpace(u1), TrimSpace(p1), TrimSpace(u2), TrimSpace(p2);
    LessIsTotal(a, b);
    LessIsTotal(c, d);
    if {a, b} == {c, d} {
      assert a in {c, d} && b in {c, d} && c in {a, b} && d in {a, b};
    }
  }

  predicate ColonFree(s: string) {
    ':' !in s
  }

  /** Splitting a joined key: the parts agree, or one part hides a colon that the other key puts at the joint. */
  lemma {:induction false} KeyCollision(a: string, b: string, c: string, d: string)
    ensures a + ":" + b == c + ":" + d <==>
      ((a == c && b == d)
       || (exists m :: c == a + ":" + m && b == m + ":" + d)
       || (exists m :: a == c + ":" + m && d == m + ":" + b))
  {
    var k1, k2 := a + ":" + b, c + ":" + d;
    if k1 == k2 {
      if |a| == |c| {
        assert a == k1[..|a|] == k2[..|c|] == c;
        assert b == k1[|a| + 1..] == k2[|c| + 1..] == d;
      } else if |a| < |c| {
        SplitKey(a, b, c, d);
      } else {
        SplitKey(c, d, a, b);
      }
    } else {
      forall m: string
        ensures a + ":" + (m + ":" + d) == a + ":" + m + ":" + d
        ensures c + ":" + (m + ":" + b) == c + ":" + m + ":" + b
      {
      }
    }
  }

  lemma {:induction false} SplitKey(a: string, b: string, c: string, d: string)
    requires a + ":" + b == c + ":" + d && |a| < |c|
    ensures exists m :: c == a + ":" + m && b == m + ":" + d
  {
    var k := a + ":" + b;
    var m := c[|a| + 1..];
    assert k[..|c|] == c && k[|a|] == ':' && c[|a|] == k[|a|];
    assert c[..|a|] == k[..|a|] == a;
    assert c == c[..|a|] + [c[|a|]] + m;
    assert b == k[|a| + 1..] == (c + (":" + d))[|a| + 1..];
    assert b == m + ":" + d;
  }

  /** A key of two colon-free ids belongs to no other pair, even one with colons in it. */
  lemma {:induction false} ColonFreeKeyIsUnique(p: Participants, q: Participants)
    requires p.Key() == q.Key() && ColonFree(p.userA) && ColonFree(p.userB)
    ensures p == q
  {
    KeyCollision(p.userA, p.userB, q.userA, q.userB);
    forall m: string
      ensures ':' in m + ":" + q.userB && ':' in q.userA + ":" + m
    {
      assert (m + ":" + q.userB)[|m|] == ':' && (q.userA + ":" + m)[|q.userA|] == ':';
    }
  }

  /** With colons, two different pairs can have one key. */
  lemma ColonIdsCollide()
    ensures Normalize("a:b", "c").Ok? && Normalize("a", "b:c").Ok?
    ensures Normalize("a:b", "c").value != Normalize("a", "b:c").value
    ensures Normalize("a:b", "c").value.Key() == Normalize("a", "b:c").value.Key() == "a:b:c"
  {
    assert TrimSpace("a:b") == "a:b" && TrimSpace("c") == "c" && TrimSpace("a") == "a" && TrimSpace("b:c") == "b:c";
    assert !Less("c", "a:b") && !Less("b:c", "a");
  }

  // ---------------------------------------------------------------- the protocol

  datatype Room = Room(roomId: string, pairKey: string, userA: string, userB: string, createdAt: int)

  /** Result of a conditional insert: an error may hide an insert that took effect. */
  datatype Write = Done | Lost | AppliedButLost

  function InsertIfAbsent(table: map<string, Room>, key: string, room: Room, w: Write): map<string, Room> {
    if w == Lost || key in table then table else table[key := room]
  }

  /** Where a call of ResolveRoom stands, between two table accesses. */
  datatype Phase =
    | Looking
    | Inserting(candidate: Room)
    | Rereading
    | Ensuring(room: Room, created: bool)
    | Returned(room: Room, created: bool)
    | Failed

  /** A call with its arguments and the participants they normalize to. */
  datatype Caller = Caller(userId: string, peerId: string, pair: Participants, phase: Phase)

  /** `used` holds the room ids generated so far; time UUIDs do not repeat. */
  datatype World = World(byPair: map<string, Room>, byId: map<string, Room>, used: set<string>, callers: map<nat, Caller>)

  datatype Step =
    | Call(c: nat, userId: string, peerId: string)
    | Look(c: nat, fails: bool, newId: string, now: int)
    | Insert(c: nat, write: Write)
    | Reread(c: nat, fails: bool)
    | Ensure(c: nat, write: Write)
    | Crash(c: nat)

  function Move(w: World, c: nat, phase: Phase): World
    requires c in w.callers
  {
    w.(callers := w.callers[c := w.callers[c].(phase := phase)])
  }

  function LookStep(w: World, c: nat, fails: bool, newId: string, now: int): World
    requires c in w.callers
  {
    var p := w.callers[c].pair;
    if fails then Move(w, c, Failed)
    else if p.Key() in w.byPair then Move(w, c, Ensuring(w.byPair[p.Key()], false))
    else if newId in w.used then w
    else Move(w.(used := w.used + {newId}), c, Inserting(Room(newId, p.Key(), p.userA, p.userB, now)))
  }

  /** A step that is not enabled leaves the world as it is. */
  function Apply(w: World, s: Step): World {
    match s
    case Call(c, userId, peerId) =>
      if c in w.callers || Normalize(userId, peerId).Err? then w
      else w.(callers := w.callers[c := Caller(userId, peerId, Normalize(userId, peerId).value, Looking)])
    case Look(c, fails, newId, now) =>
      if c in w.callers && w.callers[c].phase == Looking then LookStep(w, c, fails, newId, now) else w
    case Insert(c, write) =>
      if c in w.callers && w.callers[c].phase.Inserting? then
        var room := w.callers[c].phase.candidate;
        Move(w.(byPair := InsertIfAbsent(w.byPair, room.pairKey, room, write)), c, if write == Done then Rereading else Failed)
      else w
    case Reread(c, fails) =>
      if c in w.callers && w.callers[c].phase == Rereading then
        var key := w.callers[c].pair.Key();
        if fails || key !in w.byPair then Move(w, c, Failed) else Move(w, c, Ensuring(w.byPair[key], true))
      else w
    case Ensure(c, write) =>
      if c in w.callers && w.callers[c].phase.Ensuring? then
        var Ensuring(room, created) := w.callers[c].phase;
        Move(w.(byId := InsertIfAbsent(w.byId, room.roomId, room, write)), c, if write == Done then Returned(room, created) else Failed)
      else w
    case Crash(c) => w.(callers := w.callers - {c})
  }

  function Run(w: World, steps: seq<Step>): World
    decreases |steps|
  {
    if steps == [] then w else Run(Apply(w, steps[0]), steps[1..])
  }

  function ValidateRoom(byId: map<string, Room>, roomId: string, userId: string): bool {
    roomId in byId && (byId[roomId].userA == userId || byId[roomId].userB == userId)
  }

  // ---------------------------------------------------------------- invariant

  ghost predicate PairsOk(w: World) {
    && (forall k :: k in w.byPair ==>
          && w.byPair[k].pairKey == k && k == Participants(w.byPair[k].userA, w.byPair[k].userB).Key()
          && w.byPair[k].roomId in w.used)
    && (forall k, l :: k in w.byPair && l in w.byPair && w.byPair[k].roomId == w.byPair[l].roomId ==> k == l)
  }

  /** Each row by id is the pair table's row with the same room id. */
  ghost predicate Mirrored(w: World) {
    forall r :: r in w.byId ==>
      w.byId[r].roomId == r && w.byId[r].pairKey in w.byPair && w.byPair[w.byId[r].pairKey] == w.byId[r]
  }

  ghost predicate CallerOk(w: World, caller: Caller) {
    && Normalize(caller.userId, caller.peerId) == Ok(caller.pair)
    && match caller.phase
       case Inserting(room) =>
         && room.pairKey == caller.pair.Key() && room.userA == caller.pair.userA && room.userB == caller.pair.userB
         && room.roomId in w.used && (forall k :: k in w.byPair ==> w.byPair[k].roomId != room.roomId)
       case Ensuring(room, _) => caller.pair.Key() in w.byPair && w.byPair[caller.pair.Key()] == room
       case Returned(room, _) =>
         caller.pair.Key() in w.byPair && w.byPair[caller.pair.Key()] == room && room.roomId in w.byId
       case _ => true
  }

  ghost predicate CallersOk(w: World) {
    forall c :: c in w.callers ==> CallerOk(w, w.callers[c])
  }

  ghost predicate Waiting(w: World, c: nat) {
    c in w.callers && w.callers[c].phase.Inserting?
  }

  /** Candidates that wait to be inserted all have different ids. */
  ghost predicate Apart(w: World) {
    forall c, d :: Waiting(w, c) && Waiting(w, d) && c != d ==>
      w.callers[c].phase.candidate.roomId != w.callers[d].phase.candidate.roomId
  }

  ghost predicate Inv(w: World) {
    PairsOk(w) && Mirrored(w) && CallersOk(w) && Apart(w)
  }

  /** Rows are never changed or removed. */
  ghost predicate Grows(w: World, w': World) {
    && (forall k :: k in w.byPair ==> k in w'.byPair && w'.byPair[k] == w.byPair[k])
    && (forall r :: r in w.byId ==> r in w'.byId && w'.byId[r] == w.byId[r])
    && w.used <= w'.used
  }

  lemma {:induction false} ApplyGrows(w: World, s: Step)
    ensures Grows(w, Apply(w, s))
  {
    hide Normalize;
  }

  lemma {:induction false} InsertKeepsPairs(w: World, c: nat, write: Write)
    requires Inv(w) && Waiting(w, c)
    ensures PairsOk(Apply(w, Insert(c, write)))
  {
    hide Normalize, Mirrored, Apart;
    var room, w' := w.callers[c].phase.candidate, Apply(w, Insert(c, write));
    assert CallerOk(w, w.callers[c]);
    assert w'.byPair == w.byPair || w'.byPair == w.byPair[room.pairKey := room];
  }

  lemma {:induction false} KeepsPairs(w: World, s: Step)
    requires Inv(w)
    ensures PairsOk(Apply(w, s))
  {
    hide Normalize, Mirrored, CallersOk, Apart;
    if s.Insert? && Waiting(w, s.c) {
      InsertKeepsPairs(w, s.c, s.write);
    } else {
      assert Apply(w, s).byPair == w.byPair;
    }
  }

  lemma {:induction false} KeepsMirror(w: World, s: Step)
    requires Inv(w)
    ensures Mirrored(Apply(w, s))
  {
    hide Normalize;
    ApplyGrows(w, s);
    if s.Ensure? && s.c in w.callers {
      assert CallerOk(w, w.callers[s.c]);
    }
  }

  /** The caller that moves. */
  lemma {:induction false} MoverStaysOk(w: World, s: Step)
    requires Inv(w) && s.c in Apply(w, s).callers
    ensures CallerOk(Apply(w, s), Apply(w, s).callers[s.c])
  {
    hide Normalize;
    if s.c in w.callers {
      assert CallerOk(w, w.callers[s.c]);
    }
  }

  /** Everybody else: only an insert of the very same candidate id could disturb a waiting candidate. */
  lemma {:induction false} OthersStayOk(w: World, s: Step, c: nat)
    requires Inv(w) && c in w.callers && c != s.c
    ensures CallerOk(Apply(w, s), w.callers[c])
  {
    hide Normalize;
    assert CallerOk(w, w.callers[c]);
    ApplyGrows(w, s);
    if s.Insert? && Waiting(w, s.c) && Waiting(w, c) {
      assert w.callers[s.c].phase.candidate.roomId != w.callers[c].phase.candidate.roomId;
    }
  }

  lemma OthersKeepPhase(w: World, s: Step, c: nat)
    requires c != s.c
    ensures c in w.callers <==> c in Apply(w, s).callers
    ensures c in w.callers ==> Apply(w, s).callers[c] == w.callers[c]
  {
    hide Normalize;
  }

  lemma {:induction false} KeepsCallers(w: World, s: Step)
    requires Inv(w)
    ensures CallersOk(Apply(w, s))
  {
    hide Normalize, CallerOk;
    var w' := Apply(w, s);
    forall c | c in w'.callers ensures CallerOk(w', w'.callers[c]) {
      if c == s.c {
        MoverStaysOk(w, s);
      } else {
        OthersKeepPhase(w, s, c);
        OthersStayOk(w, s, c);
      }
    }
  }

  /** A caller comes to wait only with a freshly generated id. */
  lemma {:induction false} NewCandidate(w: World, s: Step)
    requires Waiting(Apply(w, s), s.c)
    ensures (Waiting(w, s.c) && Apply(w, s).callers[s.c] == w.callers[s.c])
      || Apply(w, s).callers[s.c].phase.candidate.roomId !in w.used
  {
    hide Normalize;
  }

  lemma {:induction false} KeepsApart(w: World, s: Step)
    requires Inv(w)
    ensures Apart(Apply(w, s))
  {
    hide Normalize, Apply;
    var w' := Apply(w, s);
    forall c, d | Waiting(w', c) && Waiting(w', d) && c != d
      ensures w'.callers[c].phase.candidate.roomId != w'.callers[d].phase.candidate.roomId
    {
      if c == s.c {
        NewCandidate(w, s);
        OthersKeepPhase(w, s, d);
        assert CallerOk(w, w.callers[d]);
      } else {
        OthersKeepPhase(w, s, c);
        assert CallerOk(w, w.callers[c]);
        if d == s.c {
          NewCandidate(w, s);
        } else {
          OthersKeepPhase(w, s, d);
        }
      }
    }
  }

  lemma {:induction false} ApplyKeepsInv(w: World, s: Step)
    requires Inv(w)
    ensures Inv(Apply(w, s))
  {
    KeepsPairs(w, s);
    KeepsMirror(w, s);
    KeepsCallers(w, s);
    KeepsApart(w, s);
  }

  lemma {:induction false} RunKeepsInv(w: World, steps: seq<Step>)
    requires Inv(w)
    ensures Inv(Run(w, steps)) && Grows(w, Run(w, steps))
    decreases |steps|
  {
    if steps != [] {
      ApplyKeepsInv(w, steps[0]);
      ApplyGrows(w, steps[0]);
      RunKeepsInv(Apply(w, steps[0]), steps[1..]);
    }
  }

  // ---------------------------------------------------------------- results

  ghost predicate HasReturned(w: World, c: nat) {
    c in w.callers && w.callers[c].phase.Returned?
  }

  ghost predicate ColonFreePair(caller: Caller) {
    ColonFree(TrimSpace(caller.userId)) && ColonFree(TrimSpace(caller.peerId))
  }

  /** In every run of any number of racing callers, crashes and lost replies included: callers for the same
      unordered pair of trimmed ids return the same room; two calls share a room exactly when their keys
      coincide; and so a pair of colon-free ids shares its room with no other pair. */
  lemma {:induction false} Agreement(w: World, steps: seq<Step>, c: nat, d: nat)
    requires Inv(w) && HasReturned(Run(w, steps), c) && HasReturned(Run(w, steps), d)
    ensures var x, y := Run(w, steps).callers[c], Run(w, steps).callers[d];
      var samePair := TrimmedPair(x.userId, x.peerId) == TrimmedPair(y.userId, y.peerId);
      var sameRoom := x.phase.room.roomId == y.phase.room.roomId;
      && (samePair ==> x.phase.room == y.phase.room)
      && (sameRoom <==> x.pair.Key() == y.pair.Key())
      && (ColonFreePair(x) && sameRoom ==> samePair)
  {
    RunKeepsInv(w, steps);
    var t := Run(w, steps);
    var x, y := t.callers[c], t.callers[d];
    assert CallerOk(t, x) && CallerOk(t, y);
    NormalizeIsUnordered(x.userId, x.peerId, y.userId, y.peerId);
    if ColonFreePair(x) && x.pair.Key() == y.pair.Key() {
      ColonFreeKeyIsUnique(x.pair, y.pair);
    }
  }

  /** Once a call has returned, now and after any further steps, ValidateRoom accepts exactly the two users of
      the returned room; for colon-free ids those are exactly the two participants of the call. */
  lemma {:induction false} ReturnedRoomValidates(w: World, more: seq<Step>, c: nat, user: string)
    requires Inv(w) && HasReturned(w, c)
    ensures var x := w.callers[c]; var room := x.phase.room;
      && (ValidateRoom(Run(w, more).byId, room.roomId, user) <==> user == room.userA || user == room.userB)
      && (ColonFreePair(x) ==>
            (ValidateRoom(Run(w, more).byId, room.roomId, user) <==> user in TrimmedPair(x.userId, x.peerId)))
  {
    RunKeepsInv(w, more);
    var x := w.callers[c];
    var room := x.phase.room;
    assert CallerOk(w, x);
    assert w.byPair[w.byId[room.roomId].pairKey] == w.byId[room.roomId];
    assert w.byId[room.roomId] == room;
    NormalizeIsUnordered(x.userId, x.peerId, x.userId, x.peerId);
    if ColonFreePair(x) {
      ColonFreeKeyIsUnique(x.pair, Participants(room.userA, room.userB));
    }
  }

  /** In every reachable world the two tables mirror each other, and rows once written stay as they are. */
  lemma {:induction false} RoomMirror(w: World, steps: seq<Step>)
    requires w == World(map[], map[], {}, map[])
    ensures Inv(Run(w, steps)) && Mirrored(Run(w, steps))
    ensures forall n :: 0 <= n <= |steps| ==> Grows(Run(w, steps[..n]), Run(w, steps))
  {
    RunKeepsInv(w, steps);
    forall n | 0 <= n <= |steps|
      ensures Grows(Run(w, steps[..n]), Run(w, steps))
    {
      RunKeepsInv(w, steps[..n]);
      RunSplit(w, steps, n);
      RunKeepsInv(Run(w, steps[..n]), steps[n..]);
    }
  }

  lemma {:induction false} RunSplit(w: World, steps: seq<Step>, n: nat)
    requires n <= |steps|
    ensures Run(w, steps) == Run(Run(w, steps[..n]), steps[n..])
    decreases |steps|
  {
    if n > 0 {
      RunSplit(Apply(w, steps[0]), steps[1..], n - 1);
      assert steps[..n][1..] == steps[1..][..n - 1] && steps[n..] == steps[1..][n - 1..];
    }
  }

  // ---------------------------------------------------------------- the store

  class Store {
    var byPair: map<string, Room>
    var byId: map<string, Room>

    constructor ()
      ensures byPair == map[] && byId == map[]
    {
      byPair, byId := map[], map[];
    }

    method GetRoomByPairKey(key: string, fails: bool) returns (r: Result<Option<Room>, ()>)
      ensures r == if fails then Err(()) else Ok(if key in byPair then Some(byPair[key]) else None)
    {
      if fails { return Err(()); }
      return Ok(if key in byPair then Some(byPair[key]) else None);
    }

    method InsertRoomByPair(room: Room, write: Write) returns (ok: bool)
      modifies `byPair
      ensures byPair == InsertIfAbsent(old(byPair), room.pairKey, room, write) && (ok <==> write == Done)
    {
      if write != Lost && room.pairKey !in byPair {
        byPair := byPair[room.pairKey := room];
      }
      return write == Done;
    }

    method EnsureRoomById(room: Room, write: Write) returns (ok: bool)
      modifies `byId
      ensures byId == InsertIfAbsent(old(byId), room.roomId, room, write) && (ok <==> write == Done)
    {
      if write != Lost && room.roomId !in byId {
        byId := byId[room.roomId := room];
      }
      return write == Done;
    }

    /** An uninterrupted call does what the protocol's steps do when nobody else takes one. */
    method ResolveRoom(userId: string, peerId: string, newId: string, now: int,
                       lookFails: bool, insert: Write, rereadFails: bool, ensure: Write)
      returns (r: Result<(Room, bool), ()>)
      modifies this
      ensures var end := Run(World(old(byPair), old(byId), {}, map[]),
                             Uninterrupted(userId, peerId, newId, now, lookFails, insert, rereadFails, ensure));
        && byPair == end.byPair && byId == end.byId
        && (r.Ok? <==> HasReturned(end, 0))
        && (r.Ok? ==> end.callers[0].phase == Returned(r.value.0, r.value.1))
    {
      hide Normalize, Run, Apply, Uninterrupted;
      ResolvedIsRun(World(byPair, byId, {}, map[]), userId, peerId, newId, now, lookFails, insert, rereadFails, ensure);
      var p := Normalize(userId, peerId);
      if p.Err? { return Err(()); }
      var found := GetRoomByPairKey(p.value.Key(), lookFails);
      if found.Err? { return Err(()); }
      if found.value.Some? {
        var ensured := EnsureRoomById(found.value.value, ensure);
        return if ensured then Ok((found.value.value, false)) else Err(());
      }
      var inserted := InsertRoomByPair(Room(newId, p.value.Key(), p.value.userA, p.value.userB, now), insert);
      if !inserted { return Err(()); }
      found := GetRoomByPairKey(p.value.Key(), rereadFails);
      if found.Err? || found.value.None? { return Err(()); }
      var ensured := EnsureRoomById(found.value.value, ensure);
      return if ensured then Ok((found.value.value, true)) else Err(());
    }

    method Validate(roomId: string, userId: string, fails: bool) returns (r: Result<bool, ()>)
      ensures r == if fails then Err(()) else Ok(ValidateRoom(byId, roomId, userId))
    {
      if fails { return Err(()); }
      if roomId !in byId { return Ok(false); }
      var room := byId[roomId];
      return Ok(room.userA == userId || room.userB == userId);
    }
  }

  /** The two tables and the answer after one call that nobody interrupts. */
  function Resolved(byPair: map<string, Room>, byId: map<string, Room>, userId: string, peerId: string, newId: string, now: int,
                    lookFails: bool, insert: Write, rereadFails: bool, ensure: Write)
    : (map<string, Room>, map<string, Room>, Result<(Room, bool), ()>)
  {
    var p := Normalize(userId, peerId);
    if p.Err? || lookFails then (byPair, byId, Err(()))
    else if p.value.Key() in byPair then
      var room := byPair[p.value.Key()];
      (byPair, InsertIfAbsent(byId, room.roomId, room, ensure), if ensure == Done then Ok((room, false)) else Err(()))
    else
      var table := InsertIfAbsent(byPair, p.value.Key(), Room(newId, p.value.Key(), p.value.userA, p.value.userB, now), insert);
      if insert != Done || rereadFails || p.value.Key() !in table then (table, byId, Err(()))
      else
        var room := table[p.value.Key()];
        (table, InsertIfAbsent(byId, room.roomId, room, ensure), if ensure == Done then Ok((room, true)) else Err(()))
  }

  lemma {:induction false} CallStep(w: World, userId: string, peerId: string)
    requires w.callers == map[] && Normalize(userId, peerId).Ok?
    ensures Apply(w, Call(0, userId, peerId)) ==
      World(w.byPair, w.byId, w.used, map[0 := Caller(userId, peerId, Normalize(userId, peerId).value, Looking)])
  {
    hide Normalize;
  }

  lemma {:induction false} EnsureStep(w: World, caller: Caller, write: Write)
    requires w.callers == map[0 := caller] && caller.phase.Ensuring?
    ensures Apply(w, Ensure(0, write)) ==
      World(w.byPair, InsertIfAbsent(w.byId, caller.phase.room.roomId, caller.phase.room, write), w.used,
            map[0 := caller.(phase := if write == Done then Returned(caller.phase.room, caller.phase.created) else Failed)])
  {
    hide Normalize;
  }

  /** The last three steps if the first look fails or finds the room. */
  lemma {:induction false} FoundSteps(w: World, caller: Caller, insert: Write, rereadFails: bool)
    requires w.callers == map[0 := caller] && (caller.phase.Ensuring? || caller.phase.Failed?)
    ensures Apply(Apply(w, Insert(0, insert)), Reread(0, rereadFails)) == w
  {
    hide Normalize;
  }

  lemma {:induction false} InsertStep(w: World, caller: Caller, insert: Write)
    requires w.callers == map[0 := caller] && caller.phase.Inserting?
    ensures Apply(w, Insert(0, insert)) ==
      World(InsertIfAbsent(w.byPair, caller.phase.candidate.pairKey, caller.phase.candidate, insert), w.byId, w.used,
            map[0 := caller.(phase := if insert == Done then Rereading else Failed)])
  {
    hide Normalize;
  }

  lemma {:induction false} RereadStep(w: World, caller: Caller, fails: bool)
    requires w.callers == map[0 := caller] && (caller.phase.Rereading? || caller.phase.Failed?)
    ensures Apply(w, Reread(0, fails)) ==
      if caller.phase.Failed? then w
      else World(w.byPair, w.byId, w.used, map[0 := caller.(phase :=
             if fails || caller.pair.Key() !in w.byPair then Failed else Ensuring(w.byPair[caller.pair.Key()], true))])
  {
    hide Normalize;
  }

  lemma {:induction false} LookStepOf(w: World, caller: Caller, fails: bool, newId: string, now: int)
    requires w.callers == map[0 := caller] && caller.phase.Looking? && newId !in w.used
    ensures var p := caller.pair;
      Apply(w, Look(0, fails, newId, now)) ==
        if fails then World(w.byPair, w.byId, w.used, map[0 := caller.(phase := Failed)])
        else if p.Key() in w.byPair then World(w.byPair, w.byId, w.used, map[0 := caller.(phase := Ensuring(w.byPair[p.Key()], false))])
        else World(w.byPair, w.byId, w.used + {newId}, map[0 := caller.(phase := Inserting(Room(newId, p.Key(), p.userA, p.userB, now)))])
  {
    hide Normalize;
  }

  lemma {:induction false} ResolvedIsRun(w: World, userId: string, peerId: string, newId: string, now: int,
                                         lookFails: bool, insert: Write, rereadFails: bool, ensure: Write)
    requires w.callers == map[] && w.used == {}
    ensures var end := Run(w, Uninterrupted(userId, peerId, newId, now, lookFails, insert, rereadFails, ensure));
      var (byPair, byId, r) := Resolved(w.byPair, w.byId, userId, peerId, newId, now, lookFails, insert, rereadFails, ensure);
      && byPair == end.byPair && byId == end.byId
      && (r.Ok? <==> HasReturned(end, 0))
      && (r.Ok? ==> end.callers[0].phase == Returned(r.value.0, r.value.1))
  {
    hide Apply;
    UninterruptedRun(w, userId, peerId, newId, now, lookFails, insert, rereadFails, ensure);
    if Normalize(userId, peerId).Err? {
      RefusedRun(w, userId, peerId, newId, now, lookFails, insert, rereadFails, ensure);
    } else if lookFails || Normalize(userId, peerId).value.Key() in w.byPair {
      FoundRun(w, userId, peerId, newId, now, lookFails, insert, rereadFails, ensure);
    } else {
      CreatingRun(w, userId, peerId, newId, now, insert, rereadFails, ensure);
    }
  }

  /** A call whose first look fails or finds the room. */
  lemma {:induction false} FoundRun(w: World, userId: string, peerId: string, newId: string, now: int,
                                    lookFails: bool, insert: Write, rereadFails: bool, ensure: Write)
    requires w.callers == map[] && newId !in w.used && Normalize(userId, peerId).Ok?
    requires lookFails || Normalize(userId, peerId).value.Key() in w.byPair
    ensures var p := Normalize(userId, peerId).value;
      Apply(Apply(Apply(Apply(Apply(w, Call(0, userId, peerId)), Look(0, lookFails, newId, now)), Insert(0, insert)),
                  Reread(0, rereadFails)), Ensure(0, ensure)) ==
        if lookFails then World(w.byPair, w.byId, w.used, map[0 := Caller(userId, peerId, p, Failed)])
        else
          var room := w.byPair[p.Key()];
          World(w.byPair, InsertIfAbsent(w.byId, room.roomId, room, ensure), w.used,
                map[0 := Caller(userId, peerId, p, if ensure == Done then Returned(room, false) else Failed)])
  {
    hide Normalize, Apply;
    CallStep(w, userId, peerId);
    var w1 := Apply(w, Call(0, userId, peerId));
    LookStepOf(w1, w1.callers[0], lookFails, newId, now);
    var w2 := Apply(w1, Look(0, lookFails, newId, now));
    FoundSteps(w2, w2.callers[0], insert, rereadFails);
    if lookFails {
      FailedStays(w2, w2.callers[0], ensure);
    } else {
      EnsureStep(w2, w2.callers[0], ensure);
    }
  }

  /** A call that finds no room. */
  lemma {:induction false} CreatingRun(w: World, userId: string, peerId: string, newId: string, now: int,
                                       insert: Write, rereadFails: bool, ensure: Write)
    requires w.callers == map[] && newId !in w.used && Normalize(userId, peerId).Ok?
    requires Normalize(userId, peerId).value.Key() !in w.byPair
    ensures var p := Normalize(userId, peerId).value;
      var byPair := InsertIfAbsent(w.byPair, p.Key(), Room(newId, p.Key(), p.userA, p.userB, now), insert);
      Apply(Apply(Apply(Apply(Apply(w, Call(0, userId, peerId)), Look(0, false, newId, now)), Insert(0, insert)),
                  Reread(0, rereadFails)), Ensure(0, ensure)) ==
        if insert != Done || rereadFails then World(byPair, w.byId, w.used + {newId}, map[0 := Caller(userId, peerId, p, Failed)])
        else
          var room := byPair[p.Key()];
          World(byPair, InsertIfAbsent(w.byId, room.roomId, room, ensure), w.used + {newId},
                map[0 := Caller(userId, peerId, p, if ensure == Done then Returned(room, true) else Failed)])
  {
    hide Normalize, Apply;
    CallStep(w, userId, peerId);
    var w1 := Apply(w, Call(0, userId, peerId));
    LookStepOf(w1, w1.callers[0], false, newId, now);
    var w2 := Apply(w1, Look(0, false, newId, now));
    InsertStep(w2, w2.callers[0], insert);
    var w3 := Apply(w2, Insert(0, insert));
    RereadStep(w3, w3.callers[0], rereadFails);
    var w4 := Apply(w3, Reread(0, rereadFails));
    if insert != Done || rereadFails {
      FailedStays(w4, w4.callers[0], ensure);
    } else {
      EnsureStep(w4, w4.callers[0], ensure);
    }
  }

  lemma {:induction false} FailedStays(w: World, caller: Caller, write: Write)
    requires w.callers == map[0 := caller] && caller.phase.Failed?
    ensures Apply(w, Ensure(0, write)) == w
  {
    hide Normalize;
  }

  lemma {:induction false} RefusedRun(w: World, userId: string, peerId: string, newId: string, now: int,
                                      lookFails: bool, insert: Write, rereadFails: bool, ensure: Write)
    requires w.callers == map[] && Normalize(userId, peerId).Err?
    ensures Apply(Apply(Apply(Apply(Apply(w, Call(0, userId, peerId)), Look(0, lookFails, newId, now)), Insert(0, insert)),
                  Reread(0, rereadFails)), Ensure(0, ensure)) == w
  {
    hide Normalize;
  }

  /** The first call for a pair creates its room under the new id. */
  lemma {:induction false} FirstCallCreates(w: World, userId: string, peerId: string, newId: string, now: int)
    requires Normalize(userId, peerId).Ok? && w.callers == map[]
    requires Normalize(userId, peerId).value.Key() !in w.byPair && newId !in w.used && newId !in w.byId
    ensures var p := Normalize(userId, peerId).value;
      var room := Room(newId, p.userA + ":" + p.userB, p.userA, p.userB, now);
      var end := Run(w, Uninterrupted(userId, peerId, newId, now, false, Done, false, Done));
      && end.callers == map[0 := Caller(userId, peerId, p, Returned(room, true))]
      && end.byPair == w.byPair[p.userA + ":" + p.userB := room] && end.byId == w.byId[newId := room]
  {
    hide Normalize, Apply;
    UninterruptedRun(w, userId, peerId, newId, now, false, Done, false, Done);
    CreatingRun(w, userId, peerId, newId, now, Done, false, Done);
  }

  /** A later call finds the room, and only adds the row by id should it be missing. */
  lemma {:induction false} LaterCallFinds(w: World, userId: string, peerId: string, newId: string, now: int)
    requires Normalize(userId, peerId).Ok? && w.callers == map[]
    requires Normalize(userId, peerId).value.Key() in w.byPair && newId !in w.used
    ensures var p := Normalize(userId, peerId).value;
      var room := w.byPair[p.userA + ":" + p.userB];
      var end := Run(w, Uninterrupted(userId, peerId, newId, now, false, Done, false, Done));
      && end.callers == map[0 := Caller(userId, peerId, p, Returned(room, false))]
      && end.byPair == w.byPair && end.byId == if room.roomId in w.byId then w.byId else w.byId[room.roomId := room]
  {
    hide Normalize, Apply;
    UninterruptedRun(w, userId, peerId, newId, now, false, Done, false, Done);
    FoundRun(w, userId, peerId, newId, now, false, Done, false, Done);
  }

  function Uninterrupted(userId: string, peerId: string, newId: string, now: int,
                         lookFails: bool, insert: Write, rereadFails: bool, ensure: Write): seq<Step> {
    [Call(0, userId, peerId), Look(0, lookFails, newId, now), Insert(0, insert), Reread(0, rereadFails), Ensure(0, ensure)]
  }

  lemma {:induction false} UninterruptedRun(w: World, userId: string, peerId: string, newId: string, now: int,
                                            lookFails: bool, insert: Write, rereadFails: bool, ensure: Write)
    ensures Run(w, Uninterrupted(userId, peerId, newId, now, lookFails, insert, rereadFails, ensure)) ==
      Apply(Apply(Apply(Apply(Apply(w, Call(0, userId, peerId)), Look(0, lookFails, newId, now)), Insert(0, insert)),
                  Reread(0, rereadFails)), Ensure(0, ensure))
  {
    var s := Uninterrupted(userId, peerId, newId, now, lookFails, insert, rereadFails, ensure);
    var w1 := Apply(w, s[0]);
    var w2 := Apply(w1, s[1]);
    var w3 := Apply(w2, s[2]);
    var w4 := Apply(w3, s[3]);
    assert s[1..][1..] == s[2..] && s[2..][1..] == s[3..] && s[3..][1..] == s[4..] && s[4..][1..] == [];
    assert Run(w4, s[4..]) == Apply(w4, s[4]);
    assert Run(w2, s[2..]) == Run(w4, s[4..]);
  }
}
