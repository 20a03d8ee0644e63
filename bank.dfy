/**
 * The question tables the game reads and never writes: `r1_questions` (through
 * `getQuestionById` of lib/questions.js), `r2_questions` and `r2_options`.
 */
module Bank {
  import opened Wrappers
  import opened Seqs

  datatype Question = Question(topic: string, text: string)

  /** A row of `r2_questions`. */
  datatype R2Row = R2Row(id: string, topic: string, text: string)

  /**
   * `r1` maps a round-one question id to its topic and text; `r2` lists the
   * round-two rows in `ORDER BY id` order; `options` lists each round-two
   * question's options in `ORDER BY id` order.
   */
  datatype QuestionBank = QuestionBank(
    r1: map<string, Question>,
    r2: seq<R2Row>,
    options: map<string, seq<string>>)
  {
    /** `getQuestionById`. */
    function QuestionById(id: string): (q: Option<Question>)
      ensures q.Some? <==> id in r1
      ensures q.Some? ==> q.value == r1[id]
    {
      if id in r1 then Some(r1[id]) else None
    }

    /** `r2ListQuestions(topic)`: the rows of that topic, or every row when no topic is given. */
    function R2ListQuestions(topic: Option<string>): (rows: seq<R2Row>)
      ensures Truthy(topic) ==> forall q :: q in rows <==> q in r2 && q.topic == topic.value
      ensures !Truthy(topic) ==> rows == r2
    {
      if Truthy(topic) then Filter(r2, (q: R2Row) => q.topic == topic.value) else r2
    }

    /** The first question listed for a topic is the first row of that topic in the table's order. */
    lemma R2FirstOfTopic(topic: string)
      requires topic != "" && R2ListQuestions(Some(topic)) != []
      ensures exists k ::
        && 0 <= k < |r2| && r2[k] == R2ListQuestions(Some(topic))[0] && r2[k].topic == topic
        && forall j :: 0 <= j < k ==> r2[j].topic != topic
    {
      FilterFirst(r2, (q: R2Row) => q.topic == topic);
      assert R2ListQuestions(Some(topic))[0] in R2ListQuestions(Some(topic));
    }

    /** `SELECT topic, text FROM r2_questions WHERE id = ?`. */
    function R2Lookup(id: string): (q: Option<Question>)
      ensures q.None? <==> forall k :: 0 <= k < |r2| ==> r2[k].id != id
      ensures q.Some? ==> exists k :: 0 <= k < |r2| && r2[k] == R2Row(id, q.value.topic, q.value.text)
    {
      Find(r2, id)
    }

    /**
     * The question `r2SelectQuestion` resolves an id to: a round-one question
     * when there is one of that id, otherwise the round-two row of that id.
     */
    function AnyQuestion(id: string): (q: Option<Question>)
      ensures id in r1 ==> q == Some(r1[id])
      ensures id !in r1 ==> q == R2Lookup(id)
    {
      match QuestionById(id)
      case Some(q1) => Some(q1)
      case None => R2Lookup(id)
    }

    /** `r2ListOptions(questionId)`: no id, or an id without options, gives the empty list. */
    function R2ListOptions(id: Option<string>): (opts: seq<string>)
      ensures !Truthy(id) || id.value !in options ==> opts == []
      ensures Truthy(id) && id.value in options ==> opts == options[id.value]
    {
      if Truthy(id) && id.value in options then options[id.value] else []
    }
  }

  function Find(rows: seq<R2Row>, id: string): (q: Option<Question>)
    ensures q.None? <==> forall k :: 0 <= k < |rows| ==> rows[k].id != id
    ensures q.Some? ==> exists k :: 0 <= k < |rows| && rows[k] == R2Row(id, q.value.topic, q.value.text)
  {
    if rows == [] then None
    else if rows[0].id == id then Some(Question(rows[0].topic, rows[0].text))
    else
      var q := Find(rows[1..], id);
      assert forall k :: 0 < k < |rows| ==> rows[k] == rows[1..][k - 1];
      q
  }
}
