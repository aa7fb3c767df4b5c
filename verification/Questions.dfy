/** The pending_questions table and the generator's cursor row
  (internal/sqlitedb/db.go). `fault` says that the statement itself fails, which
  changes nothing. */
module Questions {
  import opened Lines
  import opened Maps

  datatype Question = Question(
    id: nat, projectId: string, seedEventId: string, retrieved: seq<string>,
    situation: string, question: string, optionA: string, optionB: string,
    principle: string, durability: int, obviousness: int,
    status: string, generatedAt: int,
    sentAt: Option<string>, answeredAt: Option<string>, messageId: Option<int>, answerEventId: Option<string>,
    actualOption: string)

  /** The dynamic values UpdateQuestionStatus takes; times are Unix seconds. */
  datatype Extra =
    | Text(s: string)
    | Moment(t: int)
    | MomentPtr(p: Option<int>)
    | Number(n: int)
    | NumberPtr(q: Option<int>)
    | OtherType

  datatype Column = TextColumn(text: Option<string>) | NumberColumn(number: Option<int>)

  datatype Outcome = Done | BadStatus | BadExtra | NoRow | DbError

  predicate ValidStatus(s: string) {
    s in ["ready", "sent", "answered", "skipped", "discarded"]
  }

  /** The value one extra sets its column to; None when its name or type is refused. */
  function ColumnFor(format: int -> string, key: string, v: Extra): Option<Column> {
    if key == "sent_at" || key == "answered_at" then
      match v
      case Text(s) => Some(TextColumn(Some(s)))
      case Moment(t) => Some(TextColumn(Some(format(t))))
      case MomentPtr(p) => Some(TextColumn(if p.None? then None else Some(format(p.value))))
      case _ => None
    else if key == "telegram_message_id" then
      match v
      case Number(n) => Some(NumberColumn(Some(n)))
      case NumberPtr(q) => Some(NumberColumn(q))
      case _ => None
    else if key == "answer_event_id" && v.Text? then Some(TextColumn(Some(v.s)))
    else None
  }

  predicate ExtrasOk(format: int -> string, extras: map<string, Extra>) {
    forall k :: k in extras ==> ColumnFor(format, k, extras[k]).Some?
  }

  function TextAt(cols: map<string, Column>, key: string, was: Option<string>): Option<string> {
    if key in cols && cols[key].TextColumn? then cols[key].text else was
  }

  /** SET status = ?, and the columns that were given. */
  function SetColumns(q: Question, status: string, cols: map<string, Column>): Question {
    q.(status := status,
       sentAt := TextAt(cols, "sent_at", q.sentAt),
       answeredAt := TextAt(cols, "answered_at", q.answeredAt),
       messageId := if "telegram_message_id" in cols && cols["telegram_message_id"].NumberColumn?
                    then cols["telegram_message_id"].number else q.messageId,
       answerEventId := TextAt(cols, "answer_event_id", q.answerEventId))
  }

  function Columns(format: int -> string, extras: map<string, Extra>): map<string, Column>
    requires ExtrasOk(format, extras)
  {
    map k | k in extras :: ColumnFor(format, k, extras[k]).value
  }

  /** What an accepted update makes of the table: one row changes, and only its
    status and the columns named. */
  function Updated(rows: seq<Question>, id: nat, status: string, cols: map<string, Column>): seq<Question>
    requires 1 <= id <= |rows|
  {
    rows[id - 1 := SetColumns(rows[id - 1], status, cols)]
  }

  /** What a time extra writes, if it may be written. */
  predicate WritesTime(format: int -> string, v: Extra, was: Option<string>) {
    match v
    case Text(s) => was == Some(s)
    case Moment(t) => was == Some(format(t))
    case MomentPtr(None) => was == None
    case MomentPtr(Some(t)) => was == Some(format(t))
    case _ => false
  }

  predicate WritesNumber(v: Extra, was: Option<int>) {
    (v.Number? && was == Some(v.n)) || (v.NumberPtr? && was == v.q)
  }

  /** Each extra writes the column of its name and no other; what is not named, and
    everything but these four columns and the status, stays. */
  predicate UpdateSays(format: int -> string, extras: map<string, Extra>, status: string, q: Question, r: Question) {
    && r.status == status
    && (if "sent_at" in extras then WritesTime(format, extras["sent_at"], r.sentAt) else r.sentAt == q.sentAt)
    && (if "answered_at" in extras then WritesTime(format, extras["answered_at"], r.answeredAt)
        else r.answeredAt == q.answeredAt)
    && (if "telegram_message_id" in extras then WritesNumber(extras["telegram_message_id"], r.messageId)
        else r.messageId == q.messageId)
    && (if "answer_event_id" in extras
        then extras["answer_event_id"].Text? && r.answerEventId == Some(extras["answer_event_id"].s)
        else r.answerEventId == q.answerEventId)
    && r == q.(status := r.status, sentAt := r.sentAt, answeredAt := r.answeredAt, messageId := r.messageId,
               answerEventId := r.answerEventId)
  }

  /** An update is refused exactly for an extra of another name, or of a type that
    its column does not take. */
  lemma {:induction false} ExtrasSay(format: int -> string, extras: map<string, Extra>)
    ensures ExtrasOk(format, extras) <==>
            forall k :: k in extras ==>
              || (k in {"sent_at", "answered_at"} && (extras[k].Text? || extras[k].Moment? || extras[k].MomentPtr?))
              || (k == "telegram_message_id" && (extras[k].Number? || extras[k].NumberPtr?))
              || (k == "answer_event_id" && extras[k].Text?)
  {
    forall k | k in extras
      ensures ColumnFor(format, k, extras[k]).Some? <==>
              || (k in {"sent_at", "answered_at"} && (extras[k].Text? || extras[k].Moment? || extras[k].MomentPtr?))
              || (k == "telegram_message_id" && (extras[k].Number? || extras[k].NumberPtr?))
              || (k == "answer_event_id" && extras[k].Text?)
    {
    }
  }

  lemma {:induction false} ColumnsSay(format: int -> string, extras: map<string, Extra>, status: string, q: Question)
    requires ExtrasOk(format, extras)
    ensures UpdateSays(format, extras, status, q, SetColumns(q, status, Columns(format, extras)))
  {
    forall k | k in extras ensures ColumnFor(format, k, extras[k]).Some? {
    }
  }

  /** The stored form of a new question. */
  function Fresh(q: Question, id: nat): Question {
    q.(id := id, status := "ready", sentAt := None, answeredAt := None, messageId := None, answerEventId := None)
  }

  function CountOf(rows: seq<Question>, status: string): nat {
    if rows == [] then 0
    else CountOf(rows[..|rows| - 1], status) + if rows[|rows| - 1].status == status then 1 else 0
  }

  /** Ids are the insertion order and are never reused. */
  predicate TableOk(rows: seq<Question>) {
    forall i :: 0 <= i < |rows| ==> rows[i].id == i + 1 && ValidStatus(rows[i].status)
  }

  /** One of the rows the picking query may return. */
  predicate IsOldestReady(rows: seq<Question>, q: Question) {
    q in rows && q.status == "ready" && forall r :: r in rows && r.status == "ready" ==> q.generatedAt <= r.generatedAt
  }

  predicate IsPick(rows: seq<Question>, pick: Option<Question>) {
    if pick.Some? then IsOldestReady(rows, pick.value)
    else CountOf(rows, "ready") == 0 && forall r :: r in rows ==> r.status != "ready"
  }

  lemma PickOneMore(rows: seq<Question>, q: Question, pick: Option<Question>)
    requires IsPick(rows, pick)
    ensures IsPick(rows + [q], if q.status == "ready" && (pick.None? || q.generatedAt < pick.value.generatedAt)
                               then Some(q) else pick)
  {
    CountAppend(rows, q, "ready");
    assert forall r :: r in rows + [q] <==> r in rows || r == q;
  }

  /** The reading queries do not select actual_option. */
  function AsRead(q: Question): Question {
    q.(actualOption := "")
  }

  class DB {
    var questions: seq<Question>
    var genCursor: Option<int>
    var cursors: map<string, string>
    const format: int -> string

    ghost predicate Valid() reads this {
      TableOk(questions)
    }

    /** A database just opened: the schema seeds the cursor row with the epoch. */
    constructor (format: int -> string)
      ensures Valid() && questions == [] && genCursor == Some(0) && cursors == map[] && this.format == format
    {
      this.format := format;
      questions, genCursor, cursors := [], Some(0), map[];
    }

    method UpsertCursor(machine: string, key: string, fault: bool) returns (ok: bool)
      modifies this`cursors
      ensures ok == !fault
      ensures cursors == if ok then old(cursors)[machine := key] else old(cursors)
    {
      if !fault {
        cursors := cursors[machine := key];
      }
      ok := !fault;
    }

    method GetCursor(machine: string, fault: bool) returns (key: Option<string>)
      ensures key == if fault then None else Some(if machine in cursors then cursors[machine] else "")
    {
      if fault {
        return None;
      }
      key := Some(if machine in cursors then cursors[machine] else "");
    }

    method InsertQuestion(q: Question, fault: bool) returns (id: Option<nat>)
      requires Valid()
      modifies this`questions
      ensures Valid()
      ensures fault ==> id.None? && questions == old(questions)
      ensures !fault ==> id == Some(|questions|) && questions == old(questions) + [Fresh(q, |questions|)]
    {
      if fault {
        return None;
      }
      questions := questions + [Fresh(q, |questions| + 1)];
      return Some(|questions|);
    }

    /** The columns the extras set, unless one of them is refused. */
    method SetClause(extras: map<string, Extra>) returns (cols: Option<map<string, Column>>)
      ensures cols.Some? <==> ExtrasOk(format, extras)
      ensures cols.Some? ==> cols.value == Columns(format, extras)
    {
      var built: map<string, Column> := map[];
      var todo := extras.Keys;
      while todo != {}
        invariant todo <= extras.Keys && built.Keys == extras.Keys - todo
        invariant forall k :: k in built ==> ColumnFor(format, k, extras[k]) == Some(built[k])
        decreases |todo|
      {
        var key := AnyOf(todo);
        todo := todo - {key};
        var col := ColumnFor(format, key, extras[key]);
        if col.None? {
          return None;
        }
        built := built[key := col.value];
      }
      return Some(built);
    }

    /** Refuses in the order of the code: status, then extras, then the statement. */
    method UpdateQuestionStatus(id: nat, status: string, extras: map<string, Extra>, fault: bool) returns (r: Outcome)
      requires Valid()
      modifies this`questions
      ensures Valid()
      ensures r == if !ValidStatus(status) then BadStatus
                   else if !ExtrasOk(format, extras) then BadExtra
                   else if fault then DbError
                   else if !(1 <= id <= |old(questions)|) then NoRow
                   else Done
      ensures r.Done? ==> questions == Updated(old(questions), id, status, Columns(format, extras))
      ensures r.Done? ==> UpdateSays(format, extras, status, old(questions)[id - 1], questions[id - 1])
      ensures !r.Done? ==> questions == old(questions)
    {
      if !ValidStatus(status) {
        return BadStatus;
      }
      var cols := SetClause(extras);
      if cols.None? {
        return BadExtra;
      }
      if fault {
        return DbError;
      }
      if id < 1 || id > |questions| {
        return NoRow;
      }
      ColumnsSay(format, extras, status, questions[id - 1]);
      questions := questions[id - 1 := SetColumns(questions[id - 1], status, cols.value)];
      return Done;
    }

    /** ORDER BY generated_at ASC LIMIT 1 over the ready rows. */
    method GetNextReadyQuestion() returns (next: Option<Question>)
      requires Valid()
      ensures if next.None? then CountOf(questions, "ready") == 0
                     else exists q :: IsOldestReady(questions, q) && next.value == AsRead(q)
    {
      var oldest: Option<Question> := None;
      var i := 0;
      while i < |questions|
        invariant 0 <= i <= |questions| && IsPick(questions[..i], oldest)
      {
        assert questions[..i + 1] == questions[..i] + [questions[i]];
        PickOneMore(questions[..i], questions[i], oldest);
        if questions[i].status == "ready" && (oldest.None? || questions[i].generatedAt < oldest.value.generatedAt) {
          oldest := Some(questions[i]);
        }
        i := i + 1;
      }
      assert questions[..i] == questions;
      next := if oldest.Some? then Some(AsRead(oldest.value)) else None;
    }

    method GetStats(fault: bool) returns (ok: bool, queued: nat, answered: nat)
      ensures ok == !fault
      ensures ok ==> queued == CountOf(questions, "ready") && answered == CountOf(questions, "answered")
    {
      ok, queued, answered := !fault, 0, 0;
      if fault {
        return;
      }
      var i := 0;
      while i < |questions|
        invariant 0 <= i <= |questions|
        invariant queued == CountOf(questions[..i], "ready") && answered == CountOf(questions[..i], "answered")
      {
        assert questions[..i + 1][..i] == questions[..i];
        if questions[i].status == "ready" {
          queued := queued + 1;
        }
        if questions[i].status == "answered" {
          answered := answered + 1;
        }
        i := i + 1;
      }
      assert questions[..i] == questions;
    }

    /** The zero time when there is no row. */
    method GetQuestionGenCursor(fault: bool) returns (ts: Option<int>)
      ensures ts == if fault then None else Some(if genCursor.Some? then genCursor.value else -62_135_596_800)
    {
      if fault {
        return None;
      }
      ts := Some(if genCursor.Some? then genCursor.value else ZERO_TIME);
    }

    /** Stores a time given in milliseconds as RFC 3339 text, which has whole seconds. */
    method UpdateQuestionGenCursor(ms: int, fault: bool) returns (ok: bool)
      modifies this`genCursor
      ensures ok <==> !fault && old(genCursor).Some?
      ensures genCursor == if ok then Some(ms / 1000) else old(genCursor)
    {
      if fault || genCursor.None? {
        return false;
      }
      genCursor := Some(ms / 1000);
      ok := true;
    }
  }

  /** January 1 of the year 1, in Unix seconds. */
  const ZERO_TIME := -62135596800

  // ----- counting -----

  lemma {:induction false} CountAppend(rows: seq<Question>, q: Question, status: string)
    ensures CountOf(rows + [q], status) == CountOf(rows, status) + if q.status == status then 1 else 0
  {
    assert (rows + [q])[..|rows|] == rows;
  }

  /** Changing one row moves it from one count to another and no more. */
  lemma {:induction false} CountUpdate(rows: seq<Question>, i: nat, q: Question, status: string)
    requires i < |rows|
    ensures CountOf(rows[i := q], status) + (if rows[i].status == status then 1 else 0)
            == CountOf(rows, status) + (if q.status == status then 1 else 0)
  {
    var n := |rows| - 1;
    if i < n {
      CountUpdate(rows[..n], i, q, status);
      assert rows[i := q][..n] == rows[..n][i := q];
    } else {
      assert rows[i := q][..n] == rows[..n];
    }
  }

  /** Every question has exactly one of the five statuses. */
  lemma {:induction false} CountsSum(rows: seq<Question>)
    requires TableOk(rows)
    ensures CountOf(rows, "ready") + CountOf(rows, "sent") + CountOf(rows, "answered")
            + CountOf(rows, "skipped") + CountOf(rows, "discarded") == |rows|
  {
    if rows != [] {
      CountsSum(rows[..|rows| - 1]);
      assert ValidStatus(rows[|rows| - 1].status);
    }
  }
}
