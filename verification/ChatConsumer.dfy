/** The chat writer: a consumer that stores messages and commits offsets record by record
    (chat/message-writer/internal/kafka/consumer.go). */
module ChatConsumer {
  import opened Common

  /** The fields of an Avro record on the topic. */
  datatype Raw = Raw(messageId: string, roomId: string, senderId: string, body: string, sentAt: string)

  datatype ChatMessage = ChatMessage(messageId: string, roomId: string, senderId: string, body: string, sentAt: int)

  datatype Row = Row(message: ChatMessage, persistedAt: int)

  /** A topic: per partition its record values (None if not an Avro record), and how timestamps parse. */
  datatype Topic = Topic(partitions: seq<seq<Option<Raw>>>, parseTime: string -> Option<int>)

  function DecodeMessage(parseTime: string -> Option<int>, value: Option<Raw>): Option<ChatMessage> {
    match value
    case None => None
    case Some(raw) =>
      if raw.messageId == "" || raw.roomId == "" || raw.senderId == "" || raw.body == "" || raw.sentAt == "" then None
      else match parseTime(raw.sentAt)
        case None => None
        case Some(t) => Some(ChatMessage(raw.messageId, raw.roomId, raw.senderId, raw.body, t))
  }

  /** A call may fail, and a failed call may still have taken effect. */
  datatype Reply = Done | Lost | AppliedButLost

  /** What happens to one record: its insert at some time, and its commit. */
  datatype Fate = Fate(insert: Reply, now: int, commit: Reply)

  /** `committed` survives restarts; `position` is the next record of each partition in the running process. */
  datatype State = State(stored: map<string, Row>, committed: seq<nat>, position: seq<nat>, running: bool)

  ghost predicate Sized(topic: Topic, s: State) {
    |s.committed| == |s.position| == |topic.partitions|
  }

  function Inserted(stored: map<string, Row>, m: ChatMessage, now: int, reply: Reply): map<string, Row> {
    if reply == Lost || m.messageId in stored then stored else stored[m.messageId := Row(m, now)]
  }

  /** The next record of partition p, if there is one. */
  function NextRecord(topic: Topic, s: State, p: nat): Option<Option<ChatMessage>> {
    if p < |topic.partitions| && p < |s.position| && s.position[p] < |topic.partitions[p]|
    then Some(DecodeMessage(topic.parseTime, topic.partitions[p][s.position[p]]))
    else None
  }

  /** Decode, insert, commit; the first failure ends the process. */
  function HandleRecord(topic: Topic, s: State, p: nat, fate: Fate): State {
    match NextRecord(topic, s, p)
    case None => s.(running := false)
    case Some(None) => s.(running := false)
    case Some(Some(m)) =>
      var stored := Inserted(s.stored, m, fate.now, fate.insert);
      if fate.insert != Done || p >= |s.committed| then s.(stored := stored, running := false)
      else
        var committed := if fate.commit == Lost then s.committed else s.committed[p := s.position[p] + 1];
        s.(stored := stored, committed := committed, running := fate.commit == Done,
           position := if fate.commit == Done then s.position[p := s.position[p] + 1] else s.position)
  }

  /** The records of one poll, each named by its partition: the next one of that partition.
      Fewer fates than records mean that the process is killed half way. */
  function HandleRecords(topic: Topic, s: State, records: seq<nat>, fates: seq<Fate>): State
    decreases |records|
  {
    if records == [] || !s.running then s
    else if fates == [] then s.(running := false)
    else HandleRecords(topic, HandleRecord(topic, s, records[0], fates[0]), records[1..], fates[1..])
  }

  /** The client moves past every record it hands out. */
  function Skipped(topic: Topic, position: seq<nat>, records: seq<nat>): (r: seq<nat>)
    ensures |r| == |position|
    decreases |records|
  {
    if records == [] then position
    else
      var p := records[0];
      var there := p < |position| && p < |topic.partitions| && position[p] < |topic.partitions[p]|;
      Skipped(topic, if there then position[p := position[p] + 1] else position, records[1..])
  }

  datatype Step =
    | Poll(records: seq<nat>, errored: bool, fates: seq<Fate>)
    | Restart

  /** A poll that reports any error is logged and dropped, with the records it may carry. */
  function Apply(topic: Topic, s: State, step: Step): State {
    match step
    case Poll(records, errored, fates) =>
      if !s.running then s
      else if errored then s.(position := Skipped(topic, s.position, records))
      else HandleRecords(topic, s, records, fates)
    case Restart => s.(position := s.committed, running := true)
  }

  function Run(topic: Topic, s: State, steps: seq<Step>): State
    decreases |steps|
  {
    if steps == [] then s else Run(topic, Apply(topic, s, steps[0]), steps[1..])
  }

  class Consumer {
    const topic: Topic
    var stored: map<string, Row>
    var committed: seq<nat>
    var position: seq<nat>

    constructor (topic: Topic)
      ensures this.topic == topic && stored == map[]
      ensures committed == position && |committed| == |topic.partitions| && forall p :: 0 <= p < |committed| ==> committed[p] == 0
    {
      this.topic, stored := topic, map[];
      committed := seq(|topic.partitions|, _ => 0);
      position := seq(|topic.partitions|, _ => 0);
    }

    method InsertMessage(m: ChatMessage, now: int, reply: Reply) returns (ok: bool)
      modifies `stored
      ensures stored == Inserted(old(stored), m, now, reply) && (ok <==> reply == Done)
    {
      if reply != Lost && m.messageId !in stored {
        stored := stored[m.messageId := Row(m, now)];
      }
      return reply == Done;
    }

    method CommitRecord(p: nat, offset: nat, reply: Reply) returns (ok: bool)
      requires p < |committed|
      modifies `committed
      ensures committed == (if reply == Lost then old(committed) else old(committed)[p := offset + 1]) && (ok <==> reply == Done)
    {
      if reply != Lost {
        committed := committed[p := offset + 1];
      }
      return reply == Done;
    }

    /** Visits every record, but does nothing more once one has failed. */
    method HandleFetches(records: seq<nat>, fates: seq<Fate>) returns (failed: bool)
      requires |fates| == |records| && |committed| == |position| == |topic.partitions|
      modifies this
      ensures var s := HandleRecords(topic, State(old(stored), old(committed), old(position), true), records, fates);
        && stored == s.stored && committed == s.committed && position == s.position && failed == !s.running
    {
      ghost var start := State(stored, committed, position, true);
      failed := false;
      for i := 0 to |records|
        invariant |committed| == |position| == |topic.partitions|
        invariant HandleRecords(topic, start, records, fates) ==
          HandleRecords(topic, State(stored, committed, position, !failed), records[i..], fates[i..])
      {
        ghost var before := State(stored, committed, position, !failed);
        assert records[i..][1..] == records[i + 1..] && fates[i..][1..] == fates[i + 1..];
        if !failed {
          var p := records[i];
          var next := NextRecord(topic, State(stored, committed, position, true), p);
          if next.None? || next.value.None? {
            failed := true;
          } else {
            var inserted := InsertMessage(next.value.value, fates[i].now, fates[i].insert);
            if !inserted {
              failed := true;
            } else {
              var ok := CommitRecord(p, position[p], fates[i].commit);
              if ok {
                position := position[p := position[p] + 1];
              } else {
                failed := true;
              }
            }
          }
          assert State(stored, committed, position, !failed) == HandleRecord(topic, before, p, fates[i]);
        }
      }
    }
  }

  // ---------------------------------------------------------------- committed prefix

  /** The record decodes and a row with its message id exists. */
  predicate IsStored(topic: Topic, stored: map<string, Row>, p: nat, o: nat)
    requires p < |topic.partitions| && o < |topic.partitions[p]|
  {
    var m := DecodeMessage(topic.parseTime, topic.partitions[p][o]);
    m.Some? && m.value.messageId in stored
  }

  ghost predicate StoredBelow(topic: Topic, stored: map<string, Row>, bounds: seq<nat>) {
    && |bounds| == |topic.partitions|
    && forall p :: 0 <= p < |bounds| ==>
         && bounds[p] <= |topic.partitions[p]|
         && forall o :: 0 <= o < bounds[p] ==> IsStored(topic, stored, p, o)
  }

  /** Every record below a committed offset is stored. */
  ghost predicate CommittedPrefix(topic: Topic, s: State) {
    StoredBelow(topic, s.stored, s.committed)
  }

  /** What the process must keep: everything it has moved past is stored. */
  ghost predicate Inv(topic: Topic, s: State) {
    && CommittedPrefix(topic, s)
    && (s.running ==> StoredBelow(topic, s.stored, s.position))
  }

  ghost predicate Extends(stored: map<string, Row>, stored': map<string, Row>) {
    forall id :: id in stored ==> id in stored' && stored'[id] == stored[id]
  }

  lemma {:induction false} StoredBelowGrows(topic: Topic, stored: map<string, Row>, stored': map<string, Row>, bounds: seq<nat>)
    requires StoredBelow(topic, stored, bounds) && Extends(stored, stored')
    ensures StoredBelow(topic, stored', bounds)
  {
    forall p, o | 0 <= p < |bounds| && 0 <= o < bounds[p]
      ensures IsStored(topic, stored', p, o)
    {
      assert IsStored(topic, stored, p, o);
    }
  }

  /** Raising one bound over a stored record; the commit may also jump back to it after a replay. */
  lemma {:induction false} StoredBelowNext(topic: Topic, stored: map<string, Row>, bounds: seq<nat>, position: seq<nat>, p: nat)
    requires StoredBelow(topic, stored, bounds) && StoredBelow(topic, stored, position)
    requires p < |position| && position[p] < |topic.partitions[p]| && IsStored(topic, stored, p, position[p])
    ensures StoredBelow(topic, stored, bounds[p := position[p] + 1])
  {
  }

  lemma {:induction false} HandleRecordKeepsInv(topic: Topic, s: State, p: nat, fate: Fate)
    requires Inv(topic, s) && s.running
    ensures Inv(topic, HandleRecord(topic, s, p, fate))
    ensures Extends(s.stored, HandleRecord(topic, s, p, fate).stored)
  {
    var s' := HandleRecord(topic, s, p, fate);
    StoredBelowGrows(topic, s.stored, s'.stored, s.committed);
    StoredBelowGrows(topic, s.stored, s'.stored, s.position);
    var next := NextRecord(topic, s, p);
    if next.Some? && next.value.Some? && fate.insert == Done {
      assert IsStored(topic, s'.stored, p, s.position[p]);
      StoredBelowNext(topic, s'.stored, s.committed, s.position, p);
      StoredBelowNext(topic, s'.stored, s.position, s.position, p);
    }
  }

  lemma {:induction false} HandleRecordsKeepsInv(topic: Topic, s: State, records: seq<nat>, fates: seq<Fate>)
    requires Inv(topic, s)
    ensures Inv(topic, HandleRecords(topic, s, records, fates))
    ensures Extends(s.stored, HandleRecords(topic, s, records, fates).stored)
    decreases |records|
  {
    if records != [] && s.running && fates != [] {
      HandleRecordKeepsInv(topic, s, records[0], fates[0]);
      HandleRecordsKeepsInv(topic, HandleRecord(topic, s, records[0], fates[0]), records[1..], fates[1..]);
    }
  }

  /** An errored poll without records. */
  predicate Harmless(step: Step) {
    step.Poll? && step.errored ==> step.records == []
  }

  /** Over any run of polls, failures, kills and restarts, every record below a committed offset is stored,
      provided that polls which report an error carry no records. */
  lemma {:induction false} CommittedPrefixHolds(topic: Topic, s: State, steps: seq<Step>)
    requires Inv(topic, s) && forall step :: step in steps ==> Harmless(step)
    ensures Inv(topic, Run(topic, s, steps)) && CommittedPrefix(topic, Run(topic, s, steps))
    decreases |steps|
  {
    if steps != [] {
      assert Harmless(steps[0]);
      if steps[0].Poll? && s.running && !steps[0].errored {
        HandleRecordsKeepsInv(topic, s, steps[0].records, steps[0].fates);
      }
      CommittedPrefixHolds(topic, Apply(topic, s, steps[0]), steps[1..]);
    }
  }

  // ---------------------------------------------------------------- stored content

  /** A record with all five fields and a timestamp that parses. */
  predicate WellFormed(topic: Topic, value: Option<Raw>) {
    && value.Some?
    && value.value.messageId != "" && value.value.roomId != "" && value.value.senderId != ""
    && value.value.body != "" && value.value.sentAt != ""
    && topic.parseTime(value.value.sentAt).Some?
  }

  /** The message says field by field what the record says. */
  ghost predicate SaysTheSame(topic: Topic, raw: Raw, m: ChatMessage) {
    && m.messageId == raw.messageId
    && m.roomId == raw.roomId
    && m.senderId == raw.senderId
    && m.body == raw.body
    && topic.parseTime(raw.sentAt) == Some(m.sentAt)
  }

  ghost predicate FromRecord(topic: Topic, m: ChatMessage, p: nat, o: nat) {
    && p < |topic.partitions| && o < |topic.partitions[p]|
    && WellFormed(topic, topic.partitions[p][o]) && SaysTheSame(topic, topic.partitions[p][o].value, m)
  }

  /** Every row is stored under its own id and comes from a record of the topic. */
  ghost predicate FromTopic(topic: Topic, stored: map<string, Row>) {
    forall id :: id in stored ==>
      stored[id].message.messageId == id && exists p, o :: FromRecord(topic, stored[id].message, p, o)
  }

  lemma {:induction false} HandleRecordFromTopic(topic: Topic, s: State, p: nat, fate: Fate)
    requires FromTopic(topic, s.stored)
    ensures FromTopic(topic, HandleRecord(topic, s, p, fate).stored)
  {
    var next := NextRecord(topic, s, p);
    if next.Some? && next.value.Some? {
      assert FromRecord(topic, next.value.value, p, s.position[p]);
    }
  }

  lemma {:induction false} HandleRecordsFromTopic(topic: Topic, s: State, records: seq<nat>, fates: seq<Fate>)
    requires FromTopic(topic, s.stored)
    ensures FromTopic(topic, HandleRecords(topic, s, records, fates).stored)
    decreases |records|
  {
    if records != [] && s.running && fates != [] {
      HandleRecordFromTopic(topic, s, records[0], fates[0]);
      HandleRecordsFromTopic(topic, HandleRecord(topic, s, records[0], fates[0]), records[1..], fates[1..]);
    }
  }

  /** Over any run from an empty store, each stored row tells, field by field, what some record of the topic says. */
  lemma {:induction false} StoredComesFromTopic(topic: Topic, s: State, steps: seq<Step>)
    requires FromTopic(topic, s.stored)
    ensures FromTopic(topic, Run(topic, s, steps).stored)
    decreases |steps|
  {
    if steps != [] {
      if steps[0].Poll? {
        HandleRecordsFromTopic(topic, s, steps[0].records, steps[0].fates);
      }
      StoredComesFromTopic(topic, Apply(topic, s, steps[0]), steps[1..]);
    }
  }

  /** The next record of a partition is stored and committed exactly if it is well-formed and both calls succeed;
      then its content is what is stored, unless its id was taken. A malformed record changes nothing and ends the process. */
  lemma {:induction false} RecordHandled(topic: Topic, s: State, p: nat, fate: Fate)
    requires Sized(topic, s) && s.running && p < |s.position| && s.position[p] < |topic.partitions[p]|
    ensures var value, o, s' := topic.partitions[p][s.position[p]], s.position[p], HandleRecord(topic, s, p, fate);
      && (s'.running <==> WellFormed(topic, value) && fate.insert == Done && fate.commit == Done)
      && (s'.running ==>
            && s'.committed == s.committed[p := o + 1] && s'.position == s.position[p := o + 1]
            && value.value.messageId in s'.stored
            && (value.value.messageId !in s.stored ==>
                  && SaysTheSame(topic, value.value, s'.stored[value.value.messageId].message)
                  && s'.stored[value.value.messageId].persistedAt == fate.now))
      && (!WellFormed(topic, value) ==> s' == s.(running := false))
  {
  }

  // ---------------------------------------------------------------- dropped polls

  /** Message m, once stored, together with what is stored already covers the record. */
  ghost predicate Covered(topic: Topic, stored: map<string, Row>, m: ChatMessage, p: nat, o: nat)
    requires p < |topic.partitions| && o < |topic.partitions[p]|
  {
    var lost := DecodeMessage(topic.parseTime, topic.partitions[p][o]);
    lost.Some? && (lost.value.messageId in stored || lost.value.messageId == m.messageId)
  }

  /** No record below partition p's position is missing once the next one is stored; there is nothing to
      ask if that one cannot be decoded or there is none. */
  ghost predicate NextCovers(topic: Topic, s: State, p: nat)
    requires p < |s.position| == |topic.partitions|
  {
    s.position[p] < |topic.partitions[p]| ==>
      var next := DecodeMessage(topic.parseTime, topic.partitions[p][s.position[p]]);
      next.Some? ==> forall o :: 0 <= o < s.position[p] ==> Covered(topic, s.stored, next.value, p, o)
  }

  ghost predicate Safe(topic: Topic, s: State) {
    && CommittedPrefix(topic, s)
    && |s.position| == |topic.partitions|
    && (s.running ==> forall p :: 0 <= p < |s.position| ==> s.position[p] <= |topic.partitions[p]| && NextCovers(topic, s, p))
  }

  lemma {:induction false} NextCoversGrows(topic: Topic, s: State, s': State, p: nat)
    requires p < |s.position| == |topic.partitions| && |s'.position| == |s.position|
    requires s.position[p] <= |topic.partitions[p]|
    requires NextCovers(topic, s, p) && Extends(s.stored, s'.stored) && s'.position[p] == s.position[p]
    ensures NextCovers(topic, s', p)
  {
    forall m, o | 0 <= o < s.position[p] && Covered(topic, s.stored, m, p, o)
      ensures Covered(topic, s'.stored, m, p, o)
    {
    }
  }

  lemma {:induction false} StoredIsCovered(topic: Topic, s: State, p: nat)
    requires p < |s.position| == |topic.partitions| && s.position[p] <= |topic.partitions[p]|
    requires forall o :: 0 <= o < s.position[p] ==> IsStored(topic, s.stored, p, o)
    ensures NextCovers(topic, s, p)
  {
    forall o, m | 0 <= o < s.position[p]
      ensures Covered(topic, s.stored, m, p, o)
    {
      assert IsStored(topic, s.stored, p, o);
    }
  }

  lemma {:induction false} RestartIsSafe(topic: Topic, s: State)
    requires CommittedPrefix(topic, s)
    ensures Safe(topic, Apply(topic, s, Restart))
  {
    forall p | 0 <= p < |s.committed|
      ensures NextCovers(topic, Apply(topic, s, Restart), p)
    {
      StoredIsCovered(topic, Apply(topic, s, Restart), p);
    }
  }

  /** Storing and committing the next record keeps the committed prefix. */
  lemma {:induction false} CoveredCommit(topic: Topic, s: State, p: nat, m: ChatMessage, stored: map<string, Row>)
    requires Safe(topic, s) && s.running && NextRecord(topic, s, p) == Some(Some(m))
    requires Extends(s.stored, stored) && m.messageId in stored
    ensures StoredBelow(topic, stored, s.committed[p := s.position[p] + 1])
    ensures forall o :: 0 <= o < s.position[p] + 1 ==> IsStored(topic, stored, p, o)
  {
    StoredBelowGrows(topic, s.stored, stored, s.committed);
    assert NextCovers(topic, s, p);
    forall o | 0 <= o < s.position[p] + 1
      ensures IsStored(topic, stored, p, o)
    {
      assert o < s.position[p] ==> Covered(topic, s.stored, m, p, o);
    }
  }

  lemma {:induction false} HandleRecordKeepsSafe(topic: Topic, s: State, p: nat, fate: Fate)
    requires Safe(topic, s) && s.running
    ensures Safe(topic, HandleRecord(topic, s, p, fate))
  {
    var s' := HandleRecord(topic, s, p, fate);
    StoredBelowGrows(topic, s.stored, s'.stored, s.committed);
    var next := NextRecord(topic, s, p);
    if next.Some? && next.value.Some? && fate.insert == Done {
      CoveredCommit(topic, s, p, next.value.value, s'.stored);
      forall q | 0 <= q < |s.position| && s'.running
        ensures s'.position[q] <= |topic.partitions[q]| && NextCovers(topic, s', q)
      {
        assert s.position[q] <= |topic.partitions[q]| && NextCovers(topic, s, q);
        if q != p {
          NextCoversGrows(topic, s, s', q);
        } else {
          StoredIsCovered(topic, s', p);
        }
      }
    }
  }

  lemma {:induction false} HandleRecordsKeepsSafe(topic: Topic, s: State, records: seq<nat>, fates: seq<Fate>)
    requires Safe(topic, s)
    ensures Safe(topic, HandleRecords(topic, s, records, fates))
    decreases |records|
  {
    if records != [] && s.running && fates != [] {
      HandleRecordKeepsSafe(topic, s, records[0], fates[0]);
      HandleRecordsKeepsSafe(topic, HandleRecord(topic, s, records[0], fates[0]), records[1..], fates[1..]);
    }
  }

  lemma {:induction false} SafeRun(topic: Topic, s: State, steps: seq<Step>)
    requires Safe(topic, s) && forall step :: step in steps ==> Harmless(step)
    ensures Safe(topic, Run(topic, s, steps))
    decreases |steps|
  {
    if steps != [] {
      assert Harmless(steps[0]);
      if steps[0].Poll? && s.running && !steps[0].errored {
        HandleRecordsKeepsSafe(topic, s, steps[0].records, steps[0].fates);
      } else if steps[0].Restart? {
        RestartIsSafe(topic, s);
      } else {
        assert Apply(topic, s, steps[0]) == s;
      }
      SafeRun(topic, Apply(topic, s, steps[0]), steps[1..]);
    }
  }

  /** A missing record below the position surfaces as soon as the partition's next record is handled. */
  lemma {:induction false} LossSurfaces(topic: Topic, s: State, p: nat, now: int)
    requires Sized(topic, s) && s.running && p < |s.position| && !NextCovers(topic, s, p)
    ensures var step := Poll([p], false, [Fate(Done, now, Done)]);
      Harmless(step) && Run(topic, s, [step]) == Apply(topic, s, step) && !CommittedPrefix(topic, Apply(topic, s, step))
  {
    var fates := [Fate(Done, now, Done)];
    var step := Poll([p], false, fates);
    var s' := HandleRecord(topic, s, p, fates[0]);
    assert [p][1..] == [] && fates[1..] == [] && [step][1..] == [];
    assert HandleRecords(topic, s, [p], fates) == HandleRecords(topic, s', [], []) == s';
    assert Run(topic, s', []) == s';
    var next := DecodeMessage(topic.parseTime, topic.partitions[p][s.position[p]]);
    var o :| 0 <= o < s.position[p] && !Covered(topic, s.stored, next.value, p, o);
    assert o < s'.committed[p] && !IsStored(topic, s'.stored, p, o);
  }

  /** Whatever follows, as long as no further poll is dropped with records. */
  ghost predicate StaysCommittedPrefix(topic: Topic, s: State) {
    forall steps :: (forall step :: step in steps ==> Harmless(step)) ==> CommittedPrefix(topic, Run(topic, s, steps))
  }

  /** The dropped records of every partition are stored already, or repeat the record after them;
      a partition that ends there, or goes on with a record that cannot be decoded, loses nothing. */
  ghost predicate DropLosesNothing(topic: Topic, s: State, records: seq<nat>)
    requires Sized(topic, s)
  {
    var after := Skipped(topic, s.position, records);
    forall p :: 0 <= p < |after| && after[p] < |topic.partitions[p]| ==>
      var next := DecodeMessage(topic.parseTime, topic.partitions[p][after[p]]);
      next.Some? ==> forall o :: s.position[p] <= o < after[p] ==> Covered(topic, s.stored, next.value, p, o)
  }

  lemma {:induction false} SkippedBounds(topic: Topic, position: seq<nat>, records: seq<nat>)
    requires |position| == |topic.partitions|
    requires forall p :: 0 <= p < |position| ==> position[p] <= |topic.partitions[p]|
    ensures forall p :: 0 <= p < |position| ==>
      position[p] <= Skipped(topic, position, records)[p] <= |topic.partitions[p]|
    decreases |records|
  {
    if records != [] {
      var p := records[0];
      var there := p < |position| && p < |topic.partitions| && position[p] < |topic.partitions[p]|;
      SkippedBounds(topic, if there then position[p := position[p] + 1] else position, records[1..]);
    }
  }

  lemma {:induction false} DropIsSafe(topic: Topic, s: State, records: seq<nat>)
    requires Inv(topic, s) && s.running
    ensures DropLosesNothing(topic, s, records) <==> Safe(topic, s.(position := Skipped(topic, s.position, records)))
  {
    var t := s.(position := Skipped(topic, s.position, records));
    SkippedBounds(topic, s.position, records);
    forall p, o, m | 0 <= p < |s.position| && 0 <= o < s.position[p]
      ensures Covered(topic, s.stored, m, p, o)
    {
      assert IsStored(topic, s.stored, p, o);
    }
    if Safe(topic, t) {
      forall p | 0 <= p < |t.position|
        ensures NextCovers(topic, t, p)
      {
      }
    }
  }

  /** Exactly when dropping an errored poll with its records is harmless: the committed prefix survives every
      continuation if and only if the dropped records are accounted for. */
  lemma {:induction false} DroppedPollIsHarmlessIff(topic: Topic, s: State, records: seq<nat>)
    requires Inv(topic, s) && s.running
    ensures StaysCommittedPrefix(topic, Apply(topic, s, Poll(records, true, []))) <==> DropLosesNothing(topic, s, records)
  {
    var t := Apply(topic, s, Poll(records, true, []));
    DropIsSafe(topic, s, records);
    if Safe(topic, t) {
      forall steps | forall step :: step in steps ==> Harmless(step)
        ensures CommittedPrefix(topic, Run(topic, t, steps))
      {
        SafeRun(topic, t, steps);
      }
    } else {
      SkippedBounds(topic, s.position, records);
      var p :| 0 <= p < |t.position| && !NextCovers(topic, t, p);
      LossSurfaces(topic, t, p, 0);
      assert !CommittedPrefix(topic, Run(topic, t, [Poll([p], false, [Fate(Done, 0, Done)])]));
    }
  }

  /** The smallest such run: two records, the first one in a poll that also reports an error. */
  lemma {:induction false} DroppedRecordIsLost(topic: Topic, first: ChatMessage, second: ChatMessage, now: int)
    requires |topic.partitions| == 1 && |topic.partitions[0]| == 2
    requires DecodeMessage(topic.parseTime, topic.partitions[0][0]) == Some(first)
    requires DecodeMessage(topic.parseTime, topic.partitions[0][1]) == Some(second)
    requires first.messageId != second.messageId
    ensures var s := Run(topic, State(map[], [0], [0], true), [Poll([0], true, []), Poll([0], false, [Fate(Done, now, Done)])]);
      s.committed == [2] && first.messageId !in s.stored
  {
    var s0, a, b := State(map[], [0], [0], true), Poll([0], true, []), Poll([0], false, [Fate(Done, now, Done)]);
    var s1 := Apply(topic, s0, a);
    assert [0][1..] == [] && Skipped(topic, [0], [0]) == Skipped(topic, [1], []) == [1];
    assert s1 == State(map[], [0], [1], true);
    var s2 := HandleRecord(topic, s1, 0, b.fates[0]);
    assert HandleRecords(topic, s1, [0], b.fates) == HandleRecords(topic, s2, [], b.fates[1..]) == s2;
    assert [a, b][1..] == [b] && [b][1..] == [];
    assert Run(topic, s1, [b]) == s2;
    assert Run(topic, s0, [a, b]) == s2;
  }

  /** However often records are replayed, each message id keeps the content of its first insertion. */
  lemma {:induction false} FirstContentWins(topic: Topic, s: State, steps: seq<Step>)
    ensures Extends(s.stored, Run(topic, s, steps).stored)
    decreases |steps|
  {
    if steps != [] {
      if steps[0].Poll? {
        RecordsExtend(topic, s, steps[0].records, steps[0].fates);
      }
      FirstContentWins(topic, Apply(topic, s, steps[0]), steps[1..]);
    }
  }

  lemma {:induction false} RecordsExtend(topic: Topic, s: State, records: seq<nat>, fates: seq<Fate>)
    ensures Extends(s.stored, HandleRecords(topic, s, records, fates).stored)
    decreases |records|
  {
    if records != [] && s.running && fates != [] {
      RecordsExtend(topic, HandleRecord(topic, s, records[0], fates[0]), records[1..], fates[1..]);
    }
  }
}
