/** The write-once store on a shared file system: any number of calls of `put` on one key, interleaved step by step,
    each of which may fail or crash anywhere. Temporary names are taken to be distinct, as their 96 random bits make
    them. */
module WriteOnce {

  /** The directory entries that matter to one key. */
  datatype Name = Target | Temp(call: nat)

  /** How far a call has come: opening its temporary file, writing it, flushing it, linking it, cleaning up. */
  datatype Phase = Fresh | Writing | Flushed | Linked | Refused | Returned(ok: bool)

  datatype Call = Call(data: string, phase: Phase, written: nat, created: bool, cleaned: bool, crashed: bool)

  /** Names refer to files by number; the file of a call has the number of the call. */
  datatype System = System(names: map<Name, nat>, contents: map<nat, string>, calls: seq<Call>)

  function NewCall(data: string): Call {
    Call(data, Fresh, 0, false, false, false)
  }

  datatype Event =
    | Begin(data: string)
    | OpenTemp(call: nat)
    | WriteMore(call: nat, bytes: nat)
    | Flush(call: nat)
    | LinkTarget(call: nat)
    | Fail(call: nat)
    | CleanUp(call: nat, works: bool)
    | Crash(call: nat)

  predicate Alive(s: System, i: nat) {
    i < |s.calls| && !s.calls[i].crashed
  }

  function At(s: System, i: nat, c: Call): System
    requires i < |s.calls|
  {
    s.(calls := s.calls[i := c])
  }

  /** One step of one call. An event that does not apply changes nothing. */
  function Next(s: System, e: Event): System {
    match e
    case Begin(data) => s.(calls := s.calls + [NewCall(data)])
    case OpenTemp(i) =>
      if Alive(s, i) && s.calls[i].phase == Fresh
      then At(s.(names := s.names[Temp(i) := i], contents := s.contents[i := ""]), i,
              s.calls[i].(phase := Writing, created := true))
      else s
    case WriteMore(i, n) =>
      if Alive(s, i) && s.calls[i].phase == Writing && s.calls[i].written + n <= |s.calls[i].data|
      then
        var k := s.calls[i].written + n;
        At(s.(contents := s.contents[i := s.calls[i].data[..k]]), i, s.calls[i].(written := k))
      else s
    case Flush(i) =>
      if Alive(s, i) && s.calls[i].phase == Writing && s.calls[i].written == |s.calls[i].data|
      then At(s, i, s.calls[i].(phase := Flushed)) else s
    case LinkTarget(i) =>
      if Alive(s, i) && s.calls[i].phase == Flushed
      then if Target in s.names then At(s, i, s.calls[i].(phase := Refused))
           else At(s.(names := s.names[Target := i]), i, s.calls[i].(phase := Linked))
      else s
    case Fail(i) =>
      if Alive(s, i) && (s.calls[i].phase == Fresh || s.calls[i].phase == Writing || s.calls[i].phase == Flushed)
      then At(s, i, s.calls[i].(phase := Refused)) else s
    case CleanUp(i, works) =>
      if Alive(s, i) && (s.calls[i].phase == Linked || s.calls[i].phase == Refused)
      then At(s.(names := if works then s.names - {Temp(i)} else s.names), i,
              s.calls[i].(phase := Returned(s.calls[i].phase == Linked), cleaned := works))
      else s
    case Crash(i) => if Alive(s, i) then At(s, i, s.calls[i].(crashed := true)) else s
  }

  function Run(s: System, events: seq<Event>): System
    decreases |events|
  {
    if events == [] then s else Run(Next(s, events[0]), events[1..])
  }

  const EMPTY_SYSTEM := System(map[], map[], [])

  /** The call linked its file into place, whether or not it came to report it. */
  predicate Won(c: Call) {
    c.phase == Linked || c.phase == Returned(true)
  }

  predicate Complete(c: Call) {
    c.phase == Flushed || Won(c) ==> c.written == |c.data|
  }

  ghost predicate CallOk(s: System, i: nat)
    requires i < |s.calls|
  {
    var c := s.calls[i];
    && Complete(c) && c.written <= |c.data|
    && (c.phase == Fresh ==> !c.created && c.written == 0)
    && (c.phase == Writing || c.phase == Flushed || Won(c) ==> c.created)
    && (c.created ==> i in s.contents && s.contents[i] == c.data[..c.written])
    && (Temp(i) in s.names <==> c.created && !c.cleaned)
    && (Temp(i) in s.names ==> s.names[Temp(i)] == i)
    && (Won(c) ==> Target in s.names && s.names[Target] == i)
    && (c.cleaned ==> c.phase.Returned?)
  }

  /** The target belongs to the one call that linked it. */
  ghost predicate Inv(s: System) {
    && (forall i :: 0 <= i < |s.calls| ==> CallOk(s, i))
    && (Target in s.names ==> s.names[Target] < |s.calls| && Won(s.calls[s.names[Target]]))
    && (forall i: nat :: Temp(i) in s.names ==> i < |s.calls|)
  }

  /** A call that takes no part in a step is as well off as before. */
  lemma Bystander(s: System, t: System, i: nat)
    requires i < |s.calls| && CallOk(s, i) && i < |t.calls| && t.calls[i] == s.calls[i]
    requires i in s.contents ==> i in t.contents && t.contents[i] == s.contents[i]
    requires Temp(i) in t.names <==> Temp(i) in s.names
    requires Temp(i) in s.names ==> t.names[Temp(i)] == s.names[Temp(i)]
    requires Target in s.names ==> Target in t.names && t.names[Target] == s.names[Target]
    ensures CallOk(t, i)
  {
  }

  function Actor(s: System, e: Event): nat {
    match e
    case Begin(_) => |s.calls|
    case OpenTemp(i) => i
    case WriteMore(i, _) => i
    case Flush(i) => i
    case LinkTarget(i) => i
    case Fail(i) => i
    case CleanUp(i, _) => i
    case Crash(i) => i
  }

  /** The call that takes the step. */
  lemma ActorOk(s: System, e: Event)
    requires Inv(s) && Actor(s, e) < |Next(s, e).calls|
    ensures CallOk(Next(s, e), Actor(s, e))
  {
    var i := Actor(s, e);
    if i < |s.calls| {
      assert CallOk(s, i);
    } else {
      assert Temp(i) !in s.names;
    }
  }

  lemma NextKeeps(s: System, e: Event)
    requires Inv(s)
    ensures Inv(Next(s, e))
    ensures Target in s.names ==> Target in Next(s, e).names && Next(s, e).names[Target] == s.names[Target]
  {
    var t := Next(s, e);
    forall i | 0 <= i < |t.calls|
      ensures CallOk(t, i)
    {
      CallStep(s, e, i);
    }
    TargetStep(s, e);
  }

  lemma CallStep(s: System, e: Event, i: nat)
    requires Inv(s) && i < |Next(s, e).calls|
    ensures CallOk(Next(s, e), i)
  {
    hide CallOk;
    if i == Actor(s, e) {
      ActorOk(s, e);
    } else {
      assert CallOk(s, i);
      Bystander(s, Next(s, e), i);
    }
  }

  lemma TargetStep(s: System, e: Event)
    requires Inv(s)
    ensures var t := Next(s, e);
      && (Target in s.names ==> Target in t.names && t.names[Target] == s.names[Target])
      && (Target in t.names ==> t.names[Target] < |t.calls| && Won(t.calls[t.names[Target]]))
      && (forall i: nat :: Temp(i) in t.names ==> i < |t.calls|)
  {
    hide CallOk;
  }

  lemma {:induction false} RunKeeps(s: System, events: seq<Event>)
    requires Inv(s)
    ensures Inv(Run(s, events))
    ensures Target in s.names ==> Target in Run(s, events).names && Run(s, events).names[Target] == s.names[Target]
    decreases |events|
  {
    hide Next, Inv;
    if events != [] {
      NextKeeps(s, events[0]);
      RunKeeps(Next(s, events[0]), events[1..]);
    }
  }

  lemma {:induction false} CallsKept(s: System, events: seq<Event>, i: nat)
    requires i < |s.calls|
    ensures i < |Run(s, events).calls| && Run(s, events).calls[i].data == s.calls[i].data
    decreases |events|
  {
    if events != [] {
      hide Run;
      RunStep(s, events);
      NextCalls(s, events[0], i);
      CallsKept(Next(s, events[0]), events[1..], i);
    }
  }

  lemma RunStep(s: System, events: seq<Event>)
    requires events != []
    ensures Run(s, events) == Run(Next(s, events[0]), events[1..])
  {
  }

  lemma NextCalls(s: System, e: Event, i: nat)
    requires i < |s.calls|
    ensures i < |Next(s, e).calls| && Next(s, e).calls[i].data == s.calls[i].data
  {
  }

  /** What the invariant means for names and calls. */
  lemma InvMeans(s: System)
    requires Inv(s)
    ensures Target in s.names ==> (s.names[Target] < |s.calls| && s.names[Target] in s.contents
      && s.contents[s.names[Target]] == s.calls[s.names[Target]].data && Won(s.calls[s.names[Target]]))
    ensures forall i :: 0 <= i < |s.calls| && Won(s.calls[i]) ==> Target in s.names && s.names[Target] == i
    ensures forall i: nat :: Temp(i) in s.names <==> i < |s.calls| && s.calls[i].created && !s.calls[i].cleaned
  {
    if Target in s.names {
      assert CallOk(s, s.names[Target]);
    }
    forall i | 0 <= i < |s.calls| && Won(s.calls[i])
      ensures Target in s.names && s.names[Target] == i
    {
      assert CallOk(s, i);
    }
    forall i: nat
      ensures Temp(i) in s.names <==> i < |s.calls| && s.calls[i].created && !s.calls[i].cleaned
    {
      if i < |s.calls| {
        assert CallOk(s, i);
      }
    }
  }

  /** Over every interleaving and every crash: a visible object holds one call's bytes, complete; at most one call wins,
      and the object is visible exactly when one has won; a temporary name is left exactly by a call that created its
      file and did not get to remove it. */
  lemma PutIsWriteOnce(events: seq<Event>)
    ensures var s := Run(EMPTY_SYSTEM, events);
      && (Target in s.names ==> (s.names[Target] < |s.calls| && s.names[Target] in s.contents
          && s.contents[s.names[Target]] == s.calls[s.names[Target]].data && Won(s.calls[s.names[Target]])))
      && (forall i, j :: 0 <= i < |s.calls| && 0 <= j < |s.calls| && Won(s.calls[i]) && Won(s.calls[j]) ==> i == j)
      && (forall i :: 0 <= i < |s.calls| && Won(s.calls[i]) ==> Target in s.names)
      && forall i: nat :: Temp(i) in s.names <==> i < |s.calls| && s.calls[i].created && !s.calls[i].cleaned
  {
    hide Next, Run, Inv, Won;
    assert Inv(EMPTY_SYSTEM) by { NothingYet(); }
    RunKeeps(EMPTY_SYSTEM, events);
    InvMeans(Run(EMPTY_SYSTEM, events));
  }

  lemma NothingYet()
    ensures Inv(EMPTY_SYSTEM)
  {
  }

  /** Once visible, an object never changes: later it is the same file with the same bytes. */
  lemma VisibleNeverChanges(events: seq<Event>, more: seq<Event>)
    requires Target in Run(EMPTY_SYSTEM, events).names
    ensures var (s, t) := (Run(EMPTY_SYSTEM, events), Run(Run(EMPTY_SYSTEM, events), more));
      && Target in t.names && t.names[Target] == s.names[Target]
      && s.names[Target] in s.contents && s.names[Target] in t.contents
      && t.contents[s.names[Target]] == s.contents[s.names[Target]]
  {
    hide Next, Run;
    RunKeeps(EMPTY_SYSTEM, events);
    var s := Run(EMPTY_SYSTEM, events);
    RunKeeps(s, more);
    var t := Run(s, more);
    var i := s.names[Target];
    assert CallOk(s, i);
    CallsKept(s, more, i);
    assert CallOk(t, i);
  }

  /** A call that returned and whose clean-up worked leaves no temporary name; one that crashed after opening its file,
      or whose clean-up failed, leaves it. */
  lemma TemporariesLeft(events: seq<Event>, i: nat)
    requires i < |Run(EMPTY_SYSTEM, events).calls|
    ensures var s := Run(EMPTY_SYSTEM, events); var c := s.calls[i];
      && (c.phase.Returned? && c.cleaned ==> Temp(i) !in s.names)
      && (!c.phase.Returned? && c.created ==> Temp(i) in s.names)
  {
    hide Next, Run;
    RunKeeps(EMPTY_SYSTEM, events);
    assert CallOk(Run(EMPTY_SYSTEM, events), i);
  }

  // ---- What a call achieves -----------------------------------------------------------------------

  /** The steps a call takes itself. */
  predicate Acts(e: Event, i: nat) {
    !e.Begin? && e.call == i
  }

  function Steps(events: seq<Event>, i: nat): seq<Event>
    decreases |events|
  {
    if events == [] then []
    else (if Acts(events[0], i) then [events[0]] else []) + Steps(events[1..], i)
  }

  lemma {:induction false} RunConcat(s: System, a: seq<Event>, b: seq<Event>)
    ensures Run(s, a + b) == Run(Run(s, a), b)
    decreases |a|
  {
    hide Next;
    if a == [] {
      assert a + b == b;
    } else {
      assert (a + b)[1..] == a[1..] + b;
      RunConcat(Next(s, a[0]), a[1..], b);
    }
  }

  lemma Others(s: System, e: Event, i: nat)
    requires i < |s.calls| && !Acts(e, i)
    ensures i < |Next(s, e).calls| && Next(s, e).calls[i] == s.calls[i]
  {
  }

  /** The steps of other calls leave a call where it is. */
  lemma {:induction false} Idle(s: System, events: seq<Event>, i: nat)
    requires i < |s.calls| && Steps(events, i) == []
    ensures i < |Run(s, events).calls| && Run(s, events).calls[i] == s.calls[i]
    ensures Alive(s, i) ==> Alive(Run(s, events), i)
    decreases |events|
  {
    hide Next;
    if events != [] {
      Others(s, events[0], i);
      Idle(Next(s, events[0]), events[1..], i);
    }
  }

  /** Linking is the moment that decides: afterwards the key is visible, and the call that linked is the winner exactly
      when the key was free just before. */
  lemma LinkDecides(events: seq<Event>, i: nat)
    requires var s := Run(EMPTY_SYSTEM, events); Alive(s, i) && s.calls[i].phase == Flushed
    ensures var s := Run(EMPTY_SYSTEM, events); var t := Run(EMPTY_SYSTEM, events + [LinkTarget(i)]);
      && Target in t.names && i < |t.calls|
      && (Target !in s.names ==> t.names[Target] == i && i in t.contents && t.contents[i] == s.calls[i].data)
      && (Target in s.names ==> t.names[Target] == s.names[Target] && t.calls[i].phase == Refused)
      && (Won(t.calls[i]) <==> Target !in s.names)
  {
    hide Run, Inv;
    var s := Run(EMPTY_SYSTEM, events);
    NothingYet();
    RunKeeps(EMPTY_SYSTEM, events);
    RunConcat(EMPTY_SYSTEM, events, [LinkTarget(i)]);
    OneStep(s, LinkTarget(i));
    FlushedHolds(s, i);
  }

  lemma OneStep(s: System, e: Event)
    ensures Run(s, [e]) == Next(s, e)
  {
    hide Next;
    assert [e][1..] == [];
  }

  lemma FlushedHolds(s: System, i: nat)
    requires Inv(s) && i < |s.calls| && s.calls[i].phase == Flushed
    ensures i in s.contents && s.contents[i] == s.calls[i].data
  {
    assert CallOk(s, i);
  }

  /** A call is turned away only by a failure of its own or by an object that is already there. */
  ghost predicate Justified(s: System, failed: set<nat>) {
    forall i :: 0 <= i < |s.calls| && (s.calls[i].phase == Refused || s.calls[i].phase == Returned(false)) ==>
      i in failed || Target in s.names
  }

  function Failures(events: seq<Event>): set<nat> {
    set e | e in events && e.Fail? :: e.call
  }

  lemma NextJustified(s: System, e: Event, failed: set<nat>)
    requires Inv(s) && Justified(s, failed) && (e.Fail? ==> e.call in failed)
    ensures Justified(Next(s, e), failed)
  {
    hide CallOk;
    var t := Next(s, e);
    forall i | 0 <= i < |t.calls| && (t.calls[i].phase == Refused || t.calls[i].phase == Returned(false))
      ensures i in failed || Target in t.names
    {
      if Target !in t.names {
        assert Target !in s.names;
        if !Acts(e, i) && i < |s.calls| {
          Others(s, e, i);
        }
      }
    }
  }

  lemma {:induction false} RunJustified(s: System, events: seq<Event>, failed: set<nat>)
    requires Inv(s) && Justified(s, failed) && Failures(events) <= failed
    ensures Justified(Run(s, events), failed)
    decreases |events|
  {
    hide Next, Inv, Justified;
    if events != [] {
      assert events[0].Fail? ==> events[0].call in Failures(events);
      assert Failures(events[1..]) <= Failures(events);
      NextKeeps(s, events[0]);
      NextJustified(s, events[0], failed);
      RunJustified(Next(s, events[0]), events[1..], failed);
    }
  }

  /** Over every run: a call that did not fail and came back with an answer leaves the key visible. The answer is true
      exactly when the visible file is its own, and false exactly when it is another call's. */
  lemma AnswersTell(events: seq<Event>, i: nat)
    requires var s := Run(EMPTY_SYSTEM, events);
      i < |s.calls| && s.calls[i].phase.Returned? && i !in Failures(events)
    ensures var s := Run(EMPTY_SYSTEM, events);
      && Target in s.names && (s.calls[i].phase.ok <==> s.names[Target] == i)
      && (s.calls[i].phase.ok ==> i in s.contents && s.contents[i] == s.calls[i].data)
  {
    hide Next, Run, Inv;
    NothingYet();
    RunKeeps(EMPTY_SYSTEM, events);
    RunJustified(EMPTY_SYSTEM, events, Failures(events));
    InvMeans(Run(EMPTY_SYSTEM, events));
  }

  function TotalBytes(writes: seq<Event>): nat
    requires forall e :: e in writes ==> e.WriteMore?
  {
    if writes == [] then 0 else writes[0].bytes + TotalBytes(writes[1..])
  }

  /** Writing in any number of pieces, then flushing. */
  lemma {:induction false} WritesAndFlushes(s: System, events: seq<Event>, i: nat, writes: seq<Event>)
    requires Alive(s, i) && s.calls[i].phase == Writing
    requires forall e :: e in writes ==> e.WriteMore?
    requires Steps(events, i) == writes + [Flush(i)] && s.calls[i].written + TotalBytes(writes) == |s.calls[i].data|
    ensures Alive(Run(s, events), i) && Run(s, events).calls[i].phase == Flushed
    ensures Run(s, events).calls[i].data == s.calls[i].data
    decreases |events|
  {
    hide Alive;
    var (e, rest) := (events[0], events[1..]);
    if !Acts(e, i) {
      hide Next;
      KeepsAlive(s, e, i);
      WritesAndFlushes(Next(s, e), rest, i, writes);
    } else {
      assert Steps(events, i)[0] == e && Steps(rest, i) == Steps(events, i)[1..];
      if writes == [] {
        StepAlive(s, e, i);
        Idle(Next(s, e), rest, i);
      } else {
        assert e == writes[0] && Steps(rest, i) == writes[1..] + [Flush(i)];
        StepAlive(s, e, i);
        WritesAndFlushes(Next(s, e), rest, i, writes[1..]);
      }
    }
  }

  lemma KeepsAlive(s: System, e: Event, i: nat)
    requires Alive(s, i) && !Acts(e, i)
    ensures Alive(Next(s, e), i) && Next(s, e).calls[i] == s.calls[i]
  {
    Others(s, e, i);
  }

  /** The steps on the way to the link. */
  lemma StepAlive(s: System, e: Event, i: nat)
    requires Alive(s, i) && Acts(e, i)
    ensures var (c, t) := (s.calls[i], Next(s, e));
      && i < |t.calls| && t.calls[i].data == c.data && (!e.Crash? ==> Alive(t, i))
      && (e.OpenTemp? && c.phase == Fresh ==> t.calls[i].phase == Writing && t.calls[i].written == c.written)
      && (e.WriteMore? && c.phase == Writing && c.written + e.bytes <= |c.data| ==>
            t.calls[i].phase == Writing && t.calls[i].written == c.written + e.bytes)
      && (e.Flush? && c.phase == Writing && c.written == |c.data| ==> t.calls[i].phase == Flushed)
      && (e.CleanUp? && c.phase == Linked ==> t.calls[i].phase == Returned(true))
      && (e.CleanUp? && c.phase == Refused ==> t.calls[i].phase == Returned(false))
  {
  }

  /** A fresh call that opens, writes everything in pieces of any size and flushes. */
  lemma {:induction false} ComesToTheLink(s: System, events: seq<Event>, i: nat, writes: seq<Event>)
    requires Alive(s, i) && s.calls[i].phase == Fresh && s.calls[i].written == 0
    requires forall e :: e in writes ==> e.WriteMore?
    requires Steps(events, i) == [OpenTemp(i)] + writes + [Flush(i)] && TotalBytes(writes) == |s.calls[i].data|
    ensures Alive(Run(s, events), i) && Run(s, events).calls[i].phase == Flushed
    ensures Run(s, events).calls[i].data == s.calls[i].data
    decreases |events|
  {
    hide Next, Alive;
    var (e, rest) := (events[0], events[1..]);
    if !Acts(e, i) {
      KeepsAlive(s, e, i);
      ComesToTheLink(Next(s, e), rest, i, writes);
    } else {
      assert Steps(events, i)[0] == e && Steps(rest, i) == Steps(events, i)[1..] == writes + [Flush(i)];
      StepAlive(s, e, i);
      WritesAndFlushes(Next(s, e), rest, i, writes);
    }
  }

  /** A call that has linked or was refused, and cleans up. */
  lemma {:induction false} CleansUp(s: System, events: seq<Event>, i: nat, works: bool)
    requires Alive(s, i) && (s.calls[i].phase == Linked || s.calls[i].phase == Refused)
    requires Steps(events, i) == [CleanUp(i, works)]
    ensures i < |Run(s, events).calls|
    ensures Run(s, events).calls[i].phase == Returned(s.calls[i].phase == Linked)
    decreases |events|
  {
    hide Next, Alive;
    var (e, rest) := (events[0], events[1..]);
    if !Acts(e, i) {
      KeepsAlive(s, e, i);
      CleansUp(Next(s, e), rest, i, works);
    } else {
      assert Steps(events, i)[0] == e && Steps(rest, i) == Steps(events, i)[1..] == [];
      StepAlive(s, e, i);
      Idle(Next(s, e), rest, i);
    }
  }

  /** A put that meets no failure and no crash answers whether the key was free when it came to link, among any other
      calls at any point. If it was, exactly its bytes are visible from then on; if not, what was visible still is. */
  lemma PutGoesThrough(events: seq<Event>, data: string, before: seq<Event>, writes: seq<Event>, after: seq<Event>,
                       works: bool)
    requires forall e :: e in writes ==> e.WriteMore?
    requires TotalBytes(writes) == |data|
    requires var i := |Run(EMPTY_SYSTEM, events).calls|;
      && Steps(before, i) == [OpenTemp(i)] + writes + [Flush(i)] && Steps(after, i) == [CleanUp(i, works)]
    ensures var i := |Run(EMPTY_SYSTEM, events).calls|;
      var s := Run(EMPTY_SYSTEM, events + [Begin(data)] + before);
      var t := Run(EMPTY_SYSTEM, events + [Begin(data)] + before + [LinkTarget(i)] + after);
      && i < |t.calls| && t.calls[i].phase == Returned(Target !in s.names) && Target in t.names
      && t.names[Target] == (if Target in s.names then s.names[Target] else i)
      && (Target !in s.names ==> i in t.contents && t.contents[i] == data)
  {
    hide Run, Inv, Next;
    var s0 := Run(EMPTY_SYSTEM, events);
    var i := |s0.calls|;
    var prefix := events + [Begin(data)];
    RunConcat(EMPTY_SYSTEM, events, [Begin(data)]);
    OneStep(s0, Begin(data));
    var s1 := Run(EMPTY_SYSTEM, prefix);
    Begins(s0, data);
    RunConcat(EMPTY_SYSTEM, prefix, before);
    ComesToTheLink(s1, before, i, writes);
    LinkDecides(prefix + before, i);
    var linked := prefix + before + [LinkTarget(i)];
    var s := Run(EMPTY_SYSTEM, prefix + before);
    RunConcat(EMPTY_SYSTEM, prefix + before, [LinkTarget(i)]);
    OneStep(s, LinkTarget(i));
    Links(s, i);
    RunConcat(EMPTY_SYSTEM, linked, after);
    CleansUp(Run(EMPTY_SYSTEM, linked), after, i, works);
    VisibleNeverChanges(linked, after);
  }

  lemma Begins(s: System, data: string)
    ensures var t := Next(s, Begin(data));
      Alive(t, |s.calls|) && t.calls[|s.calls|] == Call(data, Fresh, 0, false, false, false)
  {
  }

  lemma Links(s: System, i: nat)
    requires Alive(s, i) && s.calls[i].phase == Flushed
    ensures var t := Next(s, LinkTarget(i));
      && Alive(t, i) && t.calls[i].data == s.calls[i].data
      && t.calls[i].phase == if Target in s.names then Refused else Linked
  {
  }

  predicate Stopped(s: System, i: nat) {
    i < |s.calls| && !Won(s.calls[i]) && (s.calls[i].crashed || s.calls[i].phase == Refused
      || s.calls[i].phase.Returned?)
  }

  lemma NextStopped(s: System, e: Event, i: nat)
    requires Stopped(s, i)
    ensures Stopped(Next(s, e), i)
  {
  }

  lemma {:induction false} RunStopped(s: System, events: seq<Event>, i: nat)
    requires Stopped(s, i)
    ensures Stopped(Run(s, events), i)
    decreases |events|
  {
    hide Next, Stopped;
    if events != [] {
      NextStopped(s, events[0], i);
      RunStopped(Next(s, events[0]), events[1..], i);
    }
  }

  /** A call that fails or crashes before it has linked never wins, whatever follows. */
  lemma StoppedNeverWins(s: System, i: nat, e: Event, more: seq<Event>)
    requires Alive(s, i) && (s.calls[i].phase == Fresh || s.calls[i].phase == Writing || s.calls[i].phase == Flushed)
    requires e == Fail(i) || e == Crash(i)
    ensures i < |Run(Next(s, e), more).calls| && !Won(Run(Next(s, e), more).calls[i])
  {
    hide Run;
    RunStopped(Next(s, e), more, i);
  }
}
