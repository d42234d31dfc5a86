/**
 * Saved resumes: a table of rows and a store of uploaded files. Each database or storage call is a step of its own, so
 * calls of different requests interleave and any of them may stop between two steps for good.
 */
module Resumes {
  import opened Basics

  const MAX_FILE_BYTES := 5 * 1024 * 1024
  const MAX_TEXT := 12000
  const UNLIMITED := -1

  /** Object keys hold a random UUID, so each upload has a key of its own; keys are numbered here. */
  datatype Row =
    | Upload(user: string, key: nat, mime: string, parsedText: Option<string>)
    | Link(user: string, url: string, parsedText: Option<string>)

  datatype File = File(content: Bytes, mime: string)

  datatype Input = Input(file: Option<File>, url: string)

  /** Where a request has got to; `Left` is one that has given its object up. */
  datatype Call =
    | Checked(user: string, input: Input)
    | Stored(user: string, key: nat, mime: string)
    | Found(id: nat, row: Row)
    | Dropped(key: nat)
    | Left(key: nat)
    | Ended

  /** History: what became of each key handed out. */
  datatype Fate = Held(call: nat) | OwnedBy(id: nat) | Released(call: nat)

  datatype State = State(rows: map<nat, Row>, nextRow: nat, objects: map<nat, Bytes>,
                         fates: seq<Fate>, calls: seq<Call>)

  datatype Error = NotExactlyOne | LimitReached | TooLarge | WrongType | NotFound

  /** What parsing a file gives: trimmed text, or nothing when the parser throws. */
  type Parser = (Bytes, string) -> Option<string>

  datatype Event =
    | Check(user: string, input: Input, limit: int)
    | Put(call: nat)
    | Save(call: nat)
    | Find(user: string, id: nat)
    | Drop(call: nat)
    | Delete(call: nat, ok: bool)
    | Abandon(call: nat)
    | Extract(id: nat)

  // ---- Create -----------------------------------------------------------------------------------------------

  /** The plan's limit, the free plan's when there is no subscription, and 1 when neither is there. */
  function ResumeLimit(subscribed: Option<int>, free: Option<int>): int {
    if subscribed.Some? then subscribed.value else if free.Some? then free.value else 1
  }

  function Ids(rows: map<nat, Row>, user: string): set<nat> {
    set id | id in rows && rows[id].user == user
  }

  function Count(rows: map<nat, Row>, user: string): nat {
    |Ids(rows, user)|
  }

  predicate UnderLimit(rows: map<nat, Row>, user: string, limit: int) {
    limit == UNLIMITED || Count(rows, user) < limit
  }

  const PDF: string := "application/pdf"
  const DOC: string := "application/msword"
  const DOCX: string := "application/vnd.openxmlformats-officedocument.wordprocessingml.document"

  function ValidateFile(file: File): Option<Error> {
    if |file.content| > MAX_FILE_BYTES then Some(TooLarge)
    else if file.mime != PDF && file.mime != DOC && file.mime != DOCX then Some(WrongType)
    else None
  }

  function CheckError(s: State, user: string, input: Input, limit: int): Option<Error> {
    if input.file.Some? == (input.url != "") then Some(NotExactlyOne)
    else if !UnderLimit(s.rows, user, limit) then Some(LimitReached)
    else None
  }

  function CheckStep(s: State, user: string, input: Input, limit: int): State {
    if CheckError(s, user, input, limit).Some? then s else s.(calls := s.calls + [Checked(user, input)])
  }

  function PutStep(s: State, c: nat): State {
    if c >= |s.calls| || !s.calls[c].Checked? || s.calls[c].input.file.None? then s
    else
      var file, key := s.calls[c].input.file.value, |s.fates|;
      if ValidateFile(file).Some? then s.(calls := s.calls[c := Ended])
      else s.(objects := s.objects[key := file.content], fates := s.fates + [Held(c)],
              calls := s.calls[c := Stored(s.calls[c].user, key, file.mime)])
  }

  function SaveStep(s: State, c: nat): State {
    if c >= |s.calls| then s
    else match s.calls[c]
      case Checked(user, input) =>
        if input.file.Some? then s
        else s.(rows := s.rows[s.nextRow := Link(user, input.url, None)], nextRow := s.nextRow + 1,
                calls := s.calls[c := Ended])
      case Stored(user, key, mime) =>
        if key >= |s.fates| then s
        else s.(rows := s.rows[s.nextRow := Upload(user, key, mime, None)], nextRow := s.nextRow + 1,
                fates := s.fates[key := OwnedBy(s.nextRow)], calls := s.calls[c := Ended])
      case _ => s
  }

  // ---- Remove -----------------------------------------------------------------------------------------------

  function FindStep(s: State, user: string, id: nat): State {
    if id in s.rows && s.rows[id].user == user then s.(calls := s.calls + [Found(id, s.rows[id])]) else s
  }

  function DropStep(s: State, c: nat): State {
    if c >= |s.calls| || !s.calls[c].Found? then s
    else
      var id, row := s.calls[c].id, s.calls[c].row;
      var next := s.(rows := s.rows - {id}, calls := s.calls[c := if row.Upload? then Dropped(row.key) else Ended]);
      if id in s.rows && row.Upload? && row.key < |s.fates|
      then next.(fates := s.fates[row.key := Released(c)])
      else next
  }

  /** A failure to delete the object is swallowed. */
  function DeleteStep(s: State, c: nat, ok: bool): State {
    if c >= |s.calls| || !s.calls[c].Dropped? then s
    else
      var key := s.calls[c].key;
      if ok then s.(objects := s.objects - {key}, calls := s.calls[c := Ended])
      else s.(calls := s.calls[c := Left(key)])
  }

  /** The process serving the request dies. */
  function AbandonStep(s: State, c: nat): State {
    if c >= |s.calls| then s
    else match s.calls[c]
      case Checked(_, _) => s.(calls := s.calls[c := Ended])
      case Stored(_, key, _) =>
        if key >= |s.fates| then s
        else s.(calls := s.calls[c := Left(key)], fates := s.fates[key := Released(c)])
      case Found(_, _) => s.(calls := s.calls[c := Ended])
      case Dropped(key) => s.(calls := s.calls[c := Left(key)])
      case _ => s
  }

  // ---- The text of a resume ---------------------------------------------------------------------------------

  function Clip(text: string): string {
    if |text| <= MAX_TEXT then text else text[..MAX_TEXT]
  }

  /** What downloading and parsing an upload now would answer. */
  function Reparse(parse: Parser, objects: map<nat, Bytes>, key: nat, mime: string): (r: Option<string>)
    ensures r.Some? ==> 0 < |r.value| <= MAX_TEXT
  {
    if key !in objects then None
    else
      var text := parse(objects[key], mime);
      if text.None? || text.value == "" then None else Some(Clip(text.value))
  }

  const NOTE: string := "Résumé available at: "

  /** `extractText`: the cached text, a note for a link, or a fresh parse. */
  function ExtractText(parse: Parser, objects: map<nat, Bytes>, row: Row): Option<string> {
    if row.parsedText.Some? && row.parsedText.value != "" then row.parsedText
    else match row
      case Link(_, url, _) => Some(NOTE + url)
      case Upload(_, key, mime, _) => Reparse(parse, objects, key, mime)
  }

  /** The row as `extractText` saves it. */
  function WithText(parse: Parser, objects: map<nat, Bytes>, row: Row): Row {
    if row.parsedText.Some? && row.parsedText.value != "" then row
    else match row
      case Link(_, _, _) => row
      case Upload(user, key, mime, _) =>
        var text := Reparse(parse, objects, key, mime);
        if text.None? then row else Upload(user, key, mime, text)
  }

  function ExtractStep(parse: Parser, s: State, id: nat): State {
    if id !in s.rows then s else s.(rows := s.rows[id := WithText(parse, s.objects, s.rows[id])])
  }

  // ---- Runs -------------------------------------------------------------------------------------------------

  const EMPTY := State(map[], 0, map[], [], [])

  function Step(parse: Parser, s: State, e: Event): State {
    match e
    case Check(user, input, limit) => CheckStep(s, user, input, limit)
    case Put(c) => PutStep(s, c)
    case Save(c) => SaveStep(s, c)
    case Find(user, id) => FindStep(s, user, id)
    case Drop(c) => DropStep(s, c)
    case Delete(c, ok) => DeleteStep(s, c, ok)
    case Abandon(c) => AbandonStep(s, c)
    case Extract(id) => ExtractStep(parse, s, id)
  }

  function Run(parse: Parser, s: State, es: seq<Event>): State
    decreases |es|
  {
    if es == [] then s else Step(parse, Run(parse, s, es[..|es| - 1]), es[|es| - 1])
  }
}
