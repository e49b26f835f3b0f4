/**
 The tutor calendar: scheduling, moving and cancelling lessons behind a guard against double
 booking. The guard is a query and the change a later statement, with no lock or constraint between
 them, so the calendar is modelled statement by statement as well as call by call.
 */
module TutorCalendar {
  import opened Common

  datatype Status = Scheduled | Ongoing | Completed | Cancelled | Rescheduled | NoShow

  datatype Lesson = Lesson(cohort: Option<Id>, package: Option<Id>, tutor: Id, title: string,
                           start: int, end: int, timezone: string, status: Status)

  type Calendar = map<Id, Lesson>

  datatype Error = InvalidInput | Conflict | NotFound | Forbidden | StoreFailed

  datatype Input = Input(cohort: Option<Id>, package: Option<Id>, tutor: Id, title: string,
                         start: int, end: int, timezone: string)

  // ---- The guard ----

  predicate Live(l: Lesson) { l.status != Cancelled }

  predicate Dead(l: Lesson) { l.status == Cancelled || l.status == Completed }

  predicate Overlaps(l: Lesson, start: int, end: int) { l.start < end && l.end > start }

  predicate InTheWay(c: Calendar, id: Id, tutor: Id, start: int, end: int, except: Option<Id>) {
    id in c && c[id].tutor == tutor && Live(c[id]) && except != Some(id) && Overlaps(c[id], start, end)
  }

  ghost predicate Clash(c: Calendar, tutor: Id, start: int, end: int, except: Option<Id>) {
    exists id: Id :: InTheWay(c, id, tutor, start, end, except)
  }

  ghost predicate Disjoint(c: Calendar) {
    forall i, j | i in c && j in c && i != j && Live(c[i]) && Live(c[j]) && c[i].tutor == c[j].tutor ::
      !Overlaps(c[i], c[j].start, c[j].end)
  }

  ghost predicate Ordered(c: Calendar) { forall i | i in c :: c[i].start < c[i].end }

  predicate Teaches(c: Calendar, id: Id, tutor: Id, t: int) {
    id in c && c[id].tutor == tutor && Live(c[id]) && c[id].start <= t < c[id].end
  }

  /** Pairwise disjoint windows are the same as never teaching two lessons at one moment. */
  lemma DisjointMeansOneAtATime(c: Calendar)
    requires Ordered(c)
    ensures Disjoint(c) <==>
            (forall tutor, t, i, j | Teaches(c, i, tutor, t) && Teaches(c, j, tutor, t) :: i == j)
  {
    if forall tutor, t, i, j | Teaches(c, i, tutor, t) && Teaches(c, j, tutor, t) :: i == j {
      forall i, j | i in c && j in c && i != j && Live(c[i]) && Live(c[j]) && c[i].tutor == c[j].tutor
        ensures !Overlaps(c[i], c[j].start, c[j].end)
      {
        var t := if c[i].start < c[j].start then c[j].start else c[i].start;
        assert !(Teaches(c, i, c[i].tutor, t) && Teaches(c, j, c[i].tutor, t));
      }
    }
  }

  // ---- Statements ----

  /** What a caller holds between its statements. */
  datatype Op = Loaded(id: Id, start: int, end: int)
              | Inserting(id: Id, lesson: Lesson)
              | Moving(id: Id, start: int, end: int)
              | Cancelling(id: Id)

  datatype State = State(c: Calendar, ops: map<Id, Op>)

  /** `a` is the caller. A check that fails ends the call. */
  datatype Step = CheckSchedule(a: Id, id: Id, input: Input)
                | LoadMove(a: Id, id: Id, start: int, end: int)
                | CheckMove(a: Id)
                | LoadCancel(a: Id, id: Id)
                | Write(a: Id)

  predicate Blank(s: string) { forall i :: 0 <= i < |s| ==> IsSpace(s[i]) }

  predicate ValidInput(input: Input) {
    && !(input.cohort.None? && input.package.None?)
    && !Blank(input.title)
    && input.start < input.end
  }

  function NewLesson(input: Input): Lesson {
    Lesson(input.cohort, input.package, input.tutor, input.title, input.start, input.end,
           if input.timezone == "" then "Africa/Lagos" else input.timezone, Scheduled)
  }

  /** The writing statement of a call, whatever has happened since its checks. */
  function Apply(c: Calendar, op: Op): Calendar {
    match op
    case Loaded(_, _, _) => c
    case Inserting(id, lesson) => if id in c then c else c[id := lesson]
    case Moving(id, start, end) =>
      if id in c then c[id := c[id].(start := start, end := end, status := Rescheduled)] else c
    case Cancelling(id) => if id in c then c[id := c[id].(status := Cancelled)] else c
  }

  ghost function Do(s: State, e: Step): State {
    match e
    case CheckSchedule(a, id, input) =>
      if a !in s.ops && ValidInput(input) && !Clash(s.c, input.tutor, input.start, input.end, None)
      then s.(ops := s.ops[a := Inserting(id, NewLesson(input))]) else s
    case LoadMove(a, id, start, end) =>
      if a !in s.ops && start < end && id in s.c && !Dead(s.c[id])
      then s.(ops := s.ops[a := Loaded(id, start, end)]) else s
    case CheckMove(a) =>
      if a in s.ops && s.ops[a].Loaded? && s.ops[a].id in s.c then
        var op := s.ops[a];
        if Clash(s.c, s.c[op.id].tutor, op.start, op.end, Some(op.id)) then s.(ops := s.ops - {a})
        else s.(ops := s.ops[a := Moving(op.id, op.start, op.end)])
      else s
    case LoadCancel(a, id) =>
      if a !in s.ops && id in s.c && !Dead(s.c[id]) then s.(ops := s.ops[a := Cancelling(id)]) else s
    case Write(a) =>
      if a in s.ops && !s.ops[a].Loaded? then State(Apply(s.c, s.ops[a]), s.ops - {a}) else s
  }

  ghost function Run(c0: Calendar, steps: seq<Step>): State {
    if steps == [] then State(c0, map[]) else Do(Run(c0, steps[..|steps| - 1]), steps[|steps| - 1])
  }

  // ---- What one write does ----

  predicate OpOk(c: Calendar, op: Op) {
    match op
    case Inserting(_, lesson) => lesson.start < lesson.end && lesson.status == Scheduled
    case Cancelling(id) => id in c && c[id].status != Completed
    case _ => op.start < op.end && op.id in c && c[op.id].status != Completed
  }

  /** The guard, asked again at the moment of writing. */
  ghost predicate StillFree(c: Calendar, op: Op) {
    match op
    case Inserting(id, lesson) => id in c || !Clash(c, lesson.tutor, lesson.start, lesson.end, None)
    case Moving(id, start, end) => id !in c || !Clash(c, c[id].tutor, start, end, Some(id))
    case _ => true
  }

  lemma ApplyDisjointIff(c: Calendar, op: Op)
    requires Disjoint(c) && OpOk(c, op)
    ensures Disjoint(Apply(c, op)) <==> StillFree(c, op)
  {
    var d := Apply(c, op);
    match op
    case Inserting(id, l) =>
      if id !in c && !StillFree(c, op) {
        var x: Id :| InTheWay(c, x, l.tutor, l.start, l.end, None);
        assert Overlaps(d[x], d[id].start, d[id].end);
      } else if id !in c {
        forall x | x in c && Live(c[x]) && c[x].tutor == l.tutor ensures !Overlaps(c[x], l.start, l.end) {
          assert !InTheWay(c, x, l.tutor, l.start, l.end, None);
        }
      }
    case Moving(id, start, end) =>
      if !StillFree(c, op) {
        var x: Id :| InTheWay(c, x, c[id].tutor, start, end, Some(id));
        assert Overlaps(d[x], d[id].start, d[id].end);
      } else {
        forall x | x in c && x != id && Live(c[x]) && c[x].tutor == c[id].tutor
          ensures !Overlaps(c[x], start, end)
        {
          assert !InTheWay(c, x, c[id].tutor, start, end, Some(id));
        }
      }
    case _ =>
  }

  /** Cancelled and completed lessons stay so. */
  ghost predicate DeadKept(c: Calendar, d: Calendar) {
    forall id | id in c && Dead(c[id]) :: id in d && d[id].status == c[id].status
  }

  /** The lesson a move writes to has been cancelled meanwhile. */
  predicate Revives(c: Calendar, op: Op) { op.Moving? && op.id in c && c[op.id].status == Cancelled }

  // ---- Every interleaving ----

  ghost predicate OpsOk(s: State) {
    Ordered(s.c) && forall a | a in s.ops :: OpOk(s.c, s.ops[a])
  }

  lemma StepOk(s: State, e: Step)
    requires OpsOk(s)
    ensures OpsOk(Do(s, e))
  {
    if e.Write? && e.a in s.ops && !s.ops[e.a].Loaded? {
      var d := Apply(s.c, s.ops[e.a]);
      forall a | a in s.ops ensures OpOk(d, s.ops[a]) {
        assert OpOk(s.c, s.ops[a]);
      }
    }
  }

  lemma {:induction false} RunOk(c0: Calendar, steps: seq<Step>)
    requires Ordered(c0)
    ensures OpsOk(Run(c0, steps))
  {
    if steps != [] {
      RunOk(c0, steps[..|steps| - 1]);
      StepOk(Run(c0, steps[..|steps| - 1]), steps[|steps| - 1]);
    }
  }

  predicate Writes(s: State, e: Step) { e.Write? && e.a in s.ops && !s.ops[e.a].Loaded? }

  ghost predicate FreshStep(s: State, e: Step) { Writes(s, e) ==> StillFree(s.c, s.ops[e.a]) }

  predicate SafeStep(s: State, e: Step) { Writes(s, e) ==> !Revives(s.c, s.ops[e.a]) }

  ghost predicate AllFresh(c0: Calendar, steps: seq<Step>) {
    forall k :: 0 <= k < |steps| ==> FreshStep(Run(c0, steps[..k]), steps[k])
  }

  ghost predicate AlwaysDisjoint(c0: Calendar, steps: seq<Step>) {
    forall k :: 0 <= k <= |steps| ==> Disjoint(Run(c0, steps[..k]).c)
  }

  lemma StepDisjointIff(c0: Calendar, steps: seq<Step>, k: nat)
    requires Ordered(c0) && k < |steps| && Disjoint(Run(c0, steps[..k]).c)
    ensures Disjoint(Run(c0, steps[..k + 1]).c) <==> FreshStep(Run(c0, steps[..k]), steps[k])
  {
    var s := Run(c0, steps[..k]);
    RunOk(c0, steps[..k]);
    assert steps[..k + 1][..k] == steps[..k];
    if Writes(s, steps[k]) { ApplyDisjointIff(s.c, s.ops[steps[k].a]); }
  }

  lemma {:induction false} FreshKeepsDisjoint(c0: Calendar, steps: seq<Step>, k: nat)
    requires Ordered(c0) && Disjoint(c0) && k <= |steps| && AllFresh(c0, steps)
    ensures Disjoint(Run(c0, steps[..k]).c)
  {
    if k > 0 {
      FreshKeepsDisjoint(c0, steps, k - 1);
      StepDisjointIff(c0, steps, k - 1);
    }
  }

  /**
   Under every interleaving of callers, statement by statement: no tutor is ever double-booked
   exactly when the guard would still pass at the moment of each write.
   */
  lemma CalendarDisjointIff(c0: Calendar, steps: seq<Step>)
    requires Ordered(c0) && Disjoint(c0)
    ensures AlwaysDisjoint(c0, steps) <==> AllFresh(c0, steps)
  {
    if AllFresh(c0, steps) {
      forall k | 0 <= k <= |steps| ensures Disjoint(Run(c0, steps[..k]).c) {
        FreshKeepsDisjoint(c0, steps, k);
      }
    }
    if AlwaysDisjoint(c0, steps) {
      forall k | 0 <= k < |steps| ensures FreshStep(Run(c0, steps[..k]), steps[k]) {
        assert Disjoint(Run(c0, steps[..k]).c) && Disjoint(Run(c0, steps[..k + 1]).c);
        StepDisjointIff(c0, steps, k);
      }
    }
  }

  /**
   Under every interleaving a step keeps all cancelled and completed lessons as they are, unless it
   is a move whose lesson was cancelled after it was loaded; then it brings that lesson back.
   */
  lemma DeadKeptIff(c0: Calendar, steps: seq<Step>, e: Step)
    requires Ordered(c0)
    ensures DeadKept(Run(c0, steps).c, Run(c0, steps + [e]).c) <==> SafeStep(Run(c0, steps), e)
  {
    var s := Run(c0, steps);
    RunOk(c0, steps);
    assert (steps + [e])[..|steps|] == steps;
    if Writes(s, e) { assert OpOk(s.c, s.ops[e.a]); }
  }

  /** Every lesson, at every moment of every interleaving, ends after it starts. */
  lemma AlwaysOrdered(c0: Calendar, steps: seq<Step>)
    requires Ordered(c0)
    ensures Ordered(Run(c0, steps).c)
  {
    RunOk(c0, steps);
  }

  // ---- Races ----

  /** Two callers who both check before either writes double-book the tutor. */
  lemma TwoSchedulesRace(a: Id, b: Id, i: Id, j: Id, input: Input)
    requires a != b && i != j && ValidInput(input)
    ensures var steps := [CheckSchedule(a, i, input), CheckSchedule(b, j, input), Write(a), Write(b)];
            !Disjoint(Run(map[], steps).c)
  {
    var c0: Calendar := map[];
    var steps := [CheckSchedule(a, i, input), CheckSchedule(b, j, input), Write(a), Write(b)];
    assert steps[..3][..2] == steps[..2] && steps[..2][..1] == steps[..1] && steps[..1][..0] == [];
    var s1, s2, s3, s4 := Run(c0, steps[..1]), Run(c0, steps[..2]), Run(c0, steps[..3]), Run(c0, steps);
    assert !Clash(c0, input.tutor, input.start, input.end, None);
    assert steps[..1] == [steps[0]] && Run(c0, steps[..1][..0]) == State(c0, map[]);
    assert s1 == State(c0, map[a := Inserting(i, NewLesson(input))]);
    assert s2 == State(c0, s1.ops[b := Inserting(j, NewLesson(input))]);
    assert s3.c == map[i := NewLesson(input)] && b in s3.ops;
    assert s4.c[i] == s4.c[j] == NewLesson(input);
    assert Overlaps(s4.c[i], s4.c[j].start, s4.c[j].end);
  }

  /** A cancellation between a move's checks and its write is undone by the write. */
  lemma MoveRevivesCancelled(a: Id, b: Id, i: Id, l: Lesson, start: int, end: int)
    requires a != b && !Dead(l) && start < end
    ensures var steps := [LoadMove(a, i, start, end), CheckMove(a), LoadCancel(b, i), Write(b), Write(a)];
            && Run(map[i := l], steps[..4]).c == map[i := l.(status := Cancelled)]
            && Run(map[i := l], steps).c == map[i := l.(start := start, end := end, status := Rescheduled)]
  {
    var c0: Calendar := map[i := l];
    var steps := [LoadMove(a, i, start, end), CheckMove(a), LoadCancel(b, i), Write(b), Write(a)];
    assert steps[..4][..3] == steps[..3] && steps[..3][..2] == steps[..2] && steps[..2][..1] == steps[..1] && steps[..1][..0] == [];
    assert Run(c0, steps[..1]) == State(c0, map[a := Loaded(i, start, end)]);
    assert Run(c0, steps[..2]) == State(c0, map[a := Moving(i, start, end)]);
    assert Run(c0, steps[..3]) == State(c0, map[a := Moving(i, start, end), b := Cancelling(i)]);
    assert Run(c0, steps[..4]).c == map[i := l.(status := Cancelled)] && a in Run(c0, steps[..4]).ops;
  }

  // ---- Whole calls ----

  /** Which user stands behind each tutor profile; None when no reader is wired. */
  type Tutors = Option<map<Id, Id>>

  function OwnsLesson(tutors: Tutors, actor: Id, l: Lesson): Option<Error> {
    if tutors.None? then Some(Forbidden)
    else if l.tutor !in tutors.value then Some(NotFound)
    else if tutors.value[l.tutor] != actor then Some(Forbidden)
    else None
  }

  function Scope(c: Calendar, tutors: Tutors, actor: Id, admin: bool, id: Id): Option<Error> {
    if id !in c then Some(NotFound) else if admin then None else OwnsLesson(tutors, actor, c[id])
  }

  datatype Call = Schedule(newId: Id, input: Input)
                | Reschedule(actor: Id, admin: bool, id: Id, start: int, end: int)
                | Cancel(actor: Id, admin: bool, id: Id)

  /** A call that meets nobody else: why it fails, or the write it ends with. */
  ghost function Outcome(c: Calendar, tutors: Tutors, call: Call): Result<Op, Error> {
    match call
    case Schedule(newId, input) =>
      if !ValidInput(input) then Err(InvalidInput)
      else if Clash(c, input.tutor, input.start, input.end, None) then Err(Conflict)
      else if newId in c then Err(StoreFailed)
      else Ok(Inserting(newId, NewLesson(input)))
    case Reschedule(actor, admin, id, start, end) =>
      if start >= end then Err(InvalidInput)
      else if Scope(c, tutors, actor, admin, id).Some? then Err(Scope(c, tutors, actor, admin, id).value)
      else if Dead(c[id]) || Clash(c, c[id].tutor, start, end, Some(id)) then Err(Conflict)
      else Ok(Moving(id, start, end))
    case Cancel(actor, admin, id) =>
      if Scope(c, tutors, actor, admin, id).Some? then Err(Scope(c, tutors, actor, admin, id).value)
      else if Dead(c[id]) then Err(Conflict)
      else Ok(Cancelling(id))
  }

  ghost function After(c: Calendar, tutors: Tutors, call: Call): Calendar {
    var r := Outcome(c, tutors, call);
    if r.Ok? then Apply(c, r.value) else c
  }

  ghost function AfterAll(c: Calendar, tutors: Tutors, calls: seq<Call>): Calendar {
    if calls == [] then c else After(AfterAll(c, tutors, calls[..|calls| - 1]), tutors, calls[|calls| - 1])
  }

  function StepsOf(a: Id, call: Call): seq<Step> {
    match call
    case Schedule(newId, input) => [CheckSchedule(a, newId, input), Write(a)]
    case Reschedule(_, _, id, start, end) => [LoadMove(a, id, start, end), CheckMove(a), Write(a)]
    case Cancel(_, _, id) => [LoadCancel(a, id), Write(a)]
  }

  /** A call by an authorised caller is its statements with nothing in between. */
  lemma CallIsItsSteps(c: Calendar, tutors: Tutors, call: Call, a: Id)
    requires Outcome(c, tutors, call) !in {Err(NotFound), Err(Forbidden)}
    ensures Run(c, StepsOf(a, call)) == State(After(c, tutors, call), map[])
  {
    var steps := StepsOf(a, call);
    assert steps[..1][..0] == [];
    if call.Reschedule? { assert steps[..2][..1] == steps[..1]; }
    assert Run(c, steps[..1]) == Do(State(c, map[]), steps[0]);
    assert |steps| == 2 ==> Run(c, steps) == Do(Do(State(c, map[]), steps[0]), steps[1]);
    assert |steps| == 3 ==> Run(c, steps) == Do(Do(Do(State(c, map[]), steps[0]), steps[1]), steps[2]);
  }

  lemma CallKeeps(c: Calendar, tutors: Tutors, call: Call)
    requires Ordered(c) && Disjoint(c)
    ensures var d := After(c, tutors, call); Ordered(d) && Disjoint(d) && DeadKept(c, d)
  {
    var r := Outcome(c, tutors, call);
    if r.Ok? { ApplyDisjointIff(c, r.value); }
  }

  /**
   After any sequence of calls, one at a time: a tutor's lessons that are not cancelled do not overlap, each ends
   after it starts, and no cancelled or completed lesson has come back.
   */
  lemma {:induction false} CallsKeepCalendar(c: Calendar, tutors: Tutors, calls: seq<Call>)
    requires Ordered(c) && Disjoint(c)
    ensures var d := AfterAll(c, tutors, calls); Ordered(d) && Disjoint(d) && DeadKept(c, d)
  {
    if calls != [] {
      CallsKeepCalendar(c, tutors, calls[..|calls| - 1]);
      CallKeeps(AfterAll(c, tutors, calls[..|calls| - 1]), tutors, calls[|calls| - 1]);
    }
  }

  /** A cancelled lesson's window can be booked again at once. */
  lemma CancelledSlotIsFree(c: Calendar, tutors: Tutors, actor: Id, admin: bool, id: Id, newId: Id, input: Input)
    requires Ordered(c) && Disjoint(c) && Outcome(c, tutors, Cancel(actor, admin, id)).Ok?
    requires ValidInput(input) && newId !in c
    requires input.tutor == c[id].tutor && c[id].start <= input.start && input.end <= c[id].end
    ensures Outcome(After(c, tutors, Cancel(actor, admin, id)), tutors, Schedule(newId, input)).Ok?
  {
    var d := After(c, tutors, Cancel(actor, admin, id));
    if Clash(d, input.tutor, input.start, input.end, None) {
      var x: Id :| InTheWay(d, x, input.tutor, input.start, input.end, None);
      assert x != id && Overlaps(c[x], c[id].start, c[id].end);
    }
  }

  // ---- Who may change a lesson ----

  /** A call changes a lesson only for an admin or for the lesson's own tutor, and never its tutor. */
  lemma ChangedByOwner(c: Calendar, tutors: Tutors, call: Call, id: Id)
    requires id in c
    ensures var d := After(c, tutors, call);
            && id in d && d[id].tutor == c[id].tutor
            && (d[id] != c[id] ==>
                  && !call.Schedule? && call.id == id
                  && (call.admin || (tutors.Some? && c[id].tutor in tutors.value && tutors.value[c[id].tutor] == call.actor)))
  {
  }

  lemma {:induction false} StaysWithTutor(c: Calendar, tutors: Tutors, calls: seq<Call>, id: Id)
    requires id in c
    ensures id in AfterAll(c, tutors, calls) && AfterAll(c, tutors, calls)[id].tutor == c[id].tutor
  {
    if calls != [] {
      StaysWithTutor(c, tutors, calls[..|calls| - 1], id);
      ChangedByOwner(AfterAll(c, tutors, calls[..|calls| - 1]), tutors, calls[|calls| - 1], id);
    }
  }

  /**
   Over any sequence of calls: a lesson that is not as it was has been changed by a call of an admin, or of the user
   behind the lesson's tutor profile.
   */
  lemma {:induction false} OnlyOwnersChange(c: Calendar, tutors: Tutors, calls: seq<Call>, id: Id)
    requires id in c && (id in AfterAll(c, tutors, calls) ==> AfterAll(c, tutors, calls)[id] != c[id])
    ensures exists k ::
              && 0 <= k < |calls| && !calls[k].Schedule? && calls[k].id == id
              && (calls[k].admin
                  || (tutors.Some? && c[id].tutor in tutors.value && tutors.value[c[id].tutor] == calls[k].actor))
  {
    var init, last := calls[..|calls| - 1], calls[|calls| - 1];
    StaysWithTutor(c, tutors, init, id);
    if AfterAll(c, tutors, init)[id] != c[id] {
      OnlyOwnersChange(c, tutors, init, id);
      var k :| 0 <= k < |init| && !init[k].Schedule? && init[k].id == id
               && (init[k].admin || (tutors.Some? && c[id].tutor in tutors.value && tutors.value[c[id].tutor] == init[k].actor));
      assert calls[k] == init[k];
    } else {
      ChangedByOwner(AfterAll(c, tutors, init), tutors, last, id);
      assert calls[|calls| - 1] == last;
    }
  }

  /** A cancellation, answer by answer. */
  lemma CancelledIff(c: Calendar, tutors: Tutors, actor: Id, admin: bool, id: Id)
    ensures var r := Outcome(c, tutors, Cancel(actor, admin, id));
            && (r == Err(NotFound) <==>
                  id !in c || (!admin && tutors.Some? && c[id].tutor !in tutors.value))
            && (r == Err(Forbidden) <==>
                  && id in c && !admin
                  && (tutors.None? || (c[id].tutor in tutors.value && tutors.value[c[id].tutor] != actor)))
            && (r.Ok? <==>
                  && id in c && c[id].status != Status.Cancelled && c[id].status != Completed
                  && (admin || (tutors.Some? && c[id].tutor in tutors.value && tutors.value[c[id].tutor] == actor)))
            && (r.Err? ==> r.error in {NotFound, Forbidden, Conflict})
            && After(c, tutors, Cancel(actor, admin, id))
               == if r.Ok? then c[id := c[id].(status := Status.Cancelled)] else c
  {
  }

  /** A move, answer by answer; the window is checked before anything is looked up. */
  lemma MovedIff(c: Calendar, tutors: Tutors, actor: Id, admin: bool, id: Id, start: int, end: int)
    ensures var r := Outcome(c, tutors, Reschedule(actor, admin, id, start, end));
            && (r == Err(InvalidInput) <==> end <= start)
            && (r == Err(NotFound) <==>
                  start < end && (id !in c || (!admin && tutors.Some? && c[id].tutor !in tutors.value)))
            && (r == Err(Forbidden) <==>
                  && start < end && id in c && !admin
                  && (tutors.None? || (c[id].tutor in tutors.value && tutors.value[c[id].tutor] != actor)))
            && (r.Ok? <==>
                  && start < end && id in c && c[id].status != Status.Cancelled && c[id].status != Completed
                  && (admin || (tutors.Some? && c[id].tutor in tutors.value && tutors.value[c[id].tutor] == actor))
                  && (forall x | x in c && x != id && c[x].tutor == c[id].tutor && c[x].status != Status.Cancelled ::
                        c[x].end <= start || end <= c[x].start))
            && (r.Err? ==> r.error != StoreFailed)
            && After(c, tutors, Reschedule(actor, admin, id, start, end))
               == if r.Ok? then c[id := c[id].(start := start, end := end, status := Rescheduled)] else c
  {
    if id in c {
      forall x ensures InTheWay(c, x, c[id].tutor, start, end, Some(id)) <==>
          x in c && x != id && c[x].tutor == c[id].tutor && c[x].status != Status.Cancelled && !(c[x].end <= start || end <= c[x].start) {}
    }
  }

  /** A new lesson, answer by answer. */
  lemma ScheduledIff(c: Calendar, tutors: Tutors, newId: Id, input: Input)
    requires newId !in c
    ensures var r := Outcome(c, tutors, Schedule(newId, input));
            && (r == Err(InvalidInput) <==>
                  || (input.cohort.None? && input.package.None?)
                  || (forall k :: 0 <= k < |input.title| ==> IsSpace(input.title[k]))
                  || input.end <= input.start)
            && (r == Err(Conflict) <==>
                  && (input.cohort.Some? || input.package.Some?)
                  && (exists k :: 0 <= k < |input.title| && !IsSpace(input.title[k]))
                  && input.start < input.end
                  && (exists x :: x in c && c[x].tutor == input.tutor && c[x].status != Status.Cancelled
                                  && c[x].start < input.end && input.start < c[x].end))
            && (r.Err? ==> r.error in {InvalidInput, Conflict})
            && (r.Ok? ==>
                  && After(c, tutors, Schedule(newId, input))
                     == c[newId := Lesson(input.cohort, input.package, input.tutor, input.title, input.start, input.end,
                                          if input.timezone == "" then "Africa/Lagos" else input.timezone, Scheduled)])
            && (r.Err? ==> After(c, tutors, Schedule(newId, input)) == c)
  {
    forall x ensures InTheWay(c, x, input.tutor, input.start, input.end, None) <==>
        x in c && c[x].tutor == input.tutor && c[x].status != Status.Cancelled && c[x].start < input.end && input.start < c[x].end {}
  }

  // ---- The service ----

  class LessonService {
    var rows: Calendar
    const tutorById: Tutors

    constructor (tutors: Tutors)
      ensures rows == map[] && tutorById == tutors
    {
      rows, tutorById := map[], tutors;
    }

    method HasOverlappingLessons(tutor: Id, start: int, end: int, except: Option<Id>) returns (conflict: bool)
      ensures conflict <==> Clash(rows, tutor, start, end, except)
    {
      var left := rows.Keys;
      while left != {}
        invariant left <= rows.Keys
        invariant forall id | id in rows.Keys - left :: !InTheWay(rows, id, tutor, start, end, except)
        decreases left
      {
        var id :| id in left;
        left := left - {id};
        var l := rows[id];
        if l.tutor != tutor { continue; }
        if l.status == Cancelled { continue; }
        if except == Some(id) { continue; }
        if l.start < end && l.end > start {
          assert InTheWay(rows, id, tutor, start, end, except);
          return true;
        }
      }
      conflict := false;
    }

    method ScheduleLesson(newId: Id, input: Input) returns (r: Result<Lesson, Error>)
      modifies this`rows
      ensures rows == After(old(rows), tutorById, Schedule(newId, input))
      ensures r == (var o := Outcome(old(rows), tutorById, Schedule(newId, input));
                    if o.Ok? then Ok(rows[newId]) else Err(o.error))
    {
      if input.cohort.None? && input.package.None? { return Err(InvalidInput); }
      if Blank(input.title) { return Err(InvalidInput); }
      if input.end <= input.start { return Err(InvalidInput); }
      var timezone := if input.timezone == "" then "Africa/Lagos" else input.timezone;
      var conflict := HasOverlappingLessons(input.tutor, input.start, input.end, None);
      if conflict { return Err(Conflict); }
      var lesson := Lesson(input.cohort, input.package, input.tutor, input.title,
                           input.start, input.end, timezone, Scheduled);
      if newId in rows { return Err(StoreFailed); }
      rows := rows[newId := lesson];
      r := Ok(lesson);
    }

    method RescheduleLesson(actor: Id, admin: bool, id: Id, start: int, end: int) returns (r: Result<Lesson, Error>)
      modifies this`rows
      ensures rows == After(old(rows), tutorById, Reschedule(actor, admin, id, start, end))
      ensures r == (var o := Outcome(old(rows), tutorById, Reschedule(actor, admin, id, start, end));
                    if o.Ok? then Ok(rows[id]) else Err(o.error))
      ensures r.Ok? ==> id in old(rows) && (admin || (tutorById.Some? && old(rows)[id].tutor in tutorById.value
                                                      && tutorById.value[old(rows)[id].tutor] == actor))
      ensures r == Err(Forbidden) <==>
                && start < end && id in old(rows) && !admin
                && (tutorById.Some? ==> old(rows)[id].tutor in tutorById.value
                                        && tutorById.value[old(rows)[id].tutor] != actor)
    {
      if end <= start { return Err(InvalidInput); }
      var denied := Scope(rows, tutorById, actor, admin, id);
      if denied.Some? { return Err(denied.value); }
      var lesson := rows[id];
      if lesson.status == Completed || lesson.status == Cancelled { return Err(Conflict); }
      var conflict := HasOverlappingLessons(lesson.tutor, start, end, Some(id));
      if conflict { return Err(Conflict); }
      rows := rows[id := rows[id].(start := start, end := end, status := Rescheduled)];
      r := Ok(lesson.(start := start, end := end, status := Rescheduled));
    }

    method CancelLesson(actor: Id, admin: bool, id: Id) returns (r: Result<Lesson, Error>)
      modifies this`rows
      ensures rows == After(old(rows), tutorById, Cancel(actor, admin, id))
      ensures r == (var o := Outcome(old(rows), tutorById, Cancel(actor, admin, id));
                    if o.Ok? then Ok(rows[id]) else Err(o.error))
      ensures r.Ok? <==>
                && id in old(rows) && old(rows)[id].status !in {Status.Cancelled, Completed}
                && (admin || (tutorById.Some? && old(rows)[id].tutor in tutorById.value
                              && tutorById.value[old(rows)[id].tutor] == actor))
      ensures r == Err(Forbidden) <==>
                && id in old(rows) && !admin
                && (tutorById.Some? ==> old(rows)[id].tutor in tutorById.value
                                        && tutorById.value[old(rows)[id].tutor] != actor)
    {
      var denied := Scope(rows, tutorById, actor, admin, id);
      if denied.Some? { return Err(denied.value); }
      var lesson := rows[id];
      if lesson.status == Completed || lesson.status == Cancelled { return Err(Conflict); }
      rows := rows[id := rows[id].(status := Cancelled)];
      r := Ok(lesson.(status := Cancelled));
    }
  }
}
