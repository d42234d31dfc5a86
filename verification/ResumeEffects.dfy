/** What a caller of the resume service gets, in terms of the numbers and formats it goes by. */
module ResumeEffects {
  import opened Basics
  import opened Resumes
  import opened ResumeSafety

  /** How many rows a user may hold: at most `n` of them, or any number when that is -1. */
  predicate Full(rows: map<nat, Row>, user: string, n: int) {
    n != -1 && |set id | id in rows && rows[id].user == user| >= n
  }

  /** The user's own plan decides, the free plan only without one, and one resume is allowed when neither is there. */
  predicate AtLimit(rows: map<nat, Row>, user: string, subscribed: Option<int>, free: Option<int>) {
    match (subscribed, free)
    case (Some(n), _) => Full(rows, user, n)
    case (None, Some(n)) => Full(rows, user, n)
    case (None, None) => exists id :: id in rows && rows[id].user == user
  }

  /** Why a create is refused, first reason first, and that one with nothing against it is accepted. */
  lemma CreateIsRefusedIff(s: State, user: string, input: Input, subscribed: Option<int>, free: Option<int>)
    ensures CreateAnswer(s, user, input, ResumeLimit(subscribed, free)) ==
              match (input.file, input.url == "")
              case (None, true) => Err(NotExactlyOne)
              case (Some(_), false) => Err(NotExactlyOne)
              case (None, false) => if AtLimit(s.rows, user, subscribed, free) then Err(LimitReached) else Ok(s.nextRow)
              case (Some(file), true) =>
                if AtLimit(s.rows, user, subscribed, free) then Err(LimitReached)
                else if |file.content| > 5_242_880 then Err(TooLarge)
                else if file.mime == "application/pdf" || file.mime == "application/msword" then Ok(s.nextRow)
                else if file.mime == "application/vnd.openxmlformats-officedocument.wordprocessingml.document"
                then Ok(s.nextRow)
                else Err(WrongType)
  {
    var own := set id | id in s.rows && s.rows[id].user == user;
    assert own == Ids(s.rows, user);
    if id :| id in s.rows && s.rows[id].user == user {
      assert id in own;
    } else {
      assert own == {};
    }
  }

  /** The text of an upload not read before: the first 12000 characters of what the parser makes of its file. */
  lemma UploadIsParsed(parse: Parser, objects: map<nat, Bytes>, user: string, key: nat, mime: string)
    ensures var r := ExtractText(parse, objects, Upload(user, key, mime, None));
            match r
            case None => key !in objects || parse(objects[key], mime) in {None, Some("")}
            case Some(text) =>
              && key in objects && parse(objects[key], mime).Some?
              && text <= parse(objects[key], mime).value && text != ""
              && (|text| == 12000 || (|text| < 12000 && text == parse(objects[key], mime).value))
  {
  }

  /** A link is never read: its text says where it is, and nothing is cached for it. */
  lemma LinkIsNamed(parse: Parser, s: State, id: nat)
    requires id in s.rows && s.rows[id].Link? && s.rows[id].parsedText.None?
    ensures ExtractText(parse, s.objects, s.rows[id]) == Some("Résumé available at: " + s.rows[id].url)
    ensures Step(parse, s, Extract(id)) == s
  {
    assert s.rows[id := s.rows[id]] == s.rows;
  }

  /** A resume whose text was read is not read again. */
  lemma ReadOnce(parse: Parser, s: State, id: nat)
    requires id in s.rows && s.rows[id].parsedText.Some? && s.rows[id].parsedText.value != ""
    ensures Step(parse, s, Extract(id)) == s
  {
    assert s.rows[id := s.rows[id]] == s.rows;
  }

  // ---- Calls that stop --------------------------------------------------------------------------------------

  /** A call that has ended, or given its object up, takes no further step. */
  lemma EndedCallsDoNothing(parse: Parser, s: State, c: nat, ok: bool)
    requires c < |s.calls| && (s.calls[c].Ended? || s.calls[c].Left?)
    ensures Step(parse, s, Put(c)) == s && Step(parse, s, Save(c)) == s && Step(parse, s, Drop(c)) == s
    ensures Step(parse, s, Delete(c, ok)) == s && Step(parse, s, Abandon(c)) == s
  {
  }

  /** A call can stop anywhere: it is then over, leaving rows, objects and the other calls as they were. */
  lemma AbandonedCallIsOver(parse: Parser, s: State, c: nat)
    requires Valid(parse, s) && c < |s.calls|
    ensures var t := Step(parse, s, Abandon(c));
            && t.rows == s.rows && t.objects == s.objects && t.nextRow == s.nextRow
            && t.calls == s.calls[c := t.calls[c]] && (t.calls[c].Ended? || t.calls[c].Left?)
            && (KeyInHand(s.calls[c]).Some? ==> t.calls[c] == Left(KeyInHand(s.calls[c]).value))
  {
    assert CallSound(s, c);
    assert s.calls[c := s.calls[c]] == s.calls;
  }

  /** The object a call has in hand. */
  function KeyInHand(call: Call): Option<nat> {
    match call
    case Stored(_, key, _) => Some(key)
    case Dropped(key) => Some(key)
    case Left(key) => Some(key)
    case _ => None
  }

  /** A create saves its row only once its file is stored, and a remove deletes its object at most once. */
  lemma CallsEndInOrder(parse: Parser, s: State, c: nat, ok: bool)
    requires c < |s.calls|
    ensures s.calls[c].Checked? && s.calls[c].input.file.Some? ==> Step(parse, s, Save(c)) == s
    ensures !s.calls[c].Dropped? ==> Step(parse, s, Delete(c, ok)) == s
    ensures s.calls[c].Dropped? ==>
              var key := s.calls[c].key;
              Step(parse, s, Delete(c, ok)) ==
                s.(objects := if ok then s.objects - {key} else s.objects,
                   calls := s.calls[c := if ok then Ended else Left(key)])
  {
  }
}
