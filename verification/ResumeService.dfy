/** The resume service and the text extractor as they run, changing the table and the store in place. */
module ResumeService {
  import opened Basics
  import opened Resumes
  import opened ResumeEffects
  import opened ResumeSafety

  class Library {
    const parse: Parser
    var rows: map<nat, Row>
    var nextRow: nat
    var objects: map<nat, Bytes>
    ghost var fates: seq<Fate>
    ghost var calls: seq<Call>

    ghost function View(): State
      reads this
    {
      State(rows, nextRow, objects, fates, calls)
    }

    ghost predicate Sound()
      reads this
    {
      Valid(parse, View())
    }

    constructor (parse: Parser)
      ensures Sound() && View() == EMPTY && this.parse == parse
    {
      this.parse := parse;
      rows, nextRow, objects, fates, calls := map[], 0, map[], [], [];
    }

    /** Lets a create pass when one more row still fits the limit. */
    method AssertUnderLimit(user: string, limit: int) returns (ok: bool)
      requires Sound()
      ensures forall row: Row :: row.user == user ==>
                (ok <==> limit == UNLIMITED || Count(rows[nextRow := row], user) <= limit)
      ensures ok <==> UnderLimit(rows, user, limit)
    {
      assert nextRow in rows ==> RowSound(parse, View(), nextRow);
      forall row: Row | row.user == user
        ensures UnderLimit(rows, user, limit) <==> limit == UNLIMITED || Count(rows[nextRow := row], user) <= limit
      {
        UnderLimitLeavesRoom(rows, user, limit, nextRow, row);
      }
      if limit == UNLIMITED {
        return true;
      }
      var count := Count(rows, user);
      ok := count < limit;
    }

    /** Checks the file and stores it under a new key. */
    method BuildUpload(ghost c: nat, user: string, file: File, key: nat) returns (r: Result<Row, Error>)
      requires Sound() && c < |calls| && calls[c].Checked? && calls[c].user == user && calls[c].input.file == Some(file)
      requires key == |fates|
      modifies this
      ensures Sound() && View() == PutStep(old(View()), c) && nextRow == old(nextRow)
      ensures var invalid := ValidateFile(file);
              r == if invalid.Some? then Err(invalid.value) else Ok(Upload(user, key, file.mime, None))
      ensures r.Ok? ==> calls[c] == Stored(user, key, file.mime)
    {
      PutKeepsValid(parse, View(), c);
      var invalid := ValidateFile(file);
      if invalid.Some? {
        calls := calls[c := Ended];
        return Err(invalid.value);
      }
      objects := objects[key := file.content];
      fates := fates + [Held(c)];
      calls := calls[c := Stored(user, key, file.mime)];
      r := Ok(Upload(user, key, file.mime, None));
    }

    /** `save(row)` at the end of a create. */
    method SaveRow(ghost c: nat, row: Row) returns (id: nat)
      requires Sound() && c < |calls| && row.parsedText.None?
      requires match row
               case Link(user, url, _) => calls[c] == Checked(user, Input(None, url))
               case Upload(user, key, mime, _) => calls[c] == Stored(user, key, mime)
      modifies this
      ensures Sound() && View() == SaveStep(old(View()), c) && id == old(nextRow)
    {
      SaveKeepsValid(parse, View(), c);
      assert CallSound(View(), c);
      rows := rows[nextRow := row];
      if row.Upload? {
        fates := fates[row.key := OwnedBy(nextRow)];
      }
      calls := calls[c := Ended];
      id := nextRow;
      nextRow := nextRow + 1;
    }

    /**
     * `subscribed` and `free` are the limits of the user's plan and of the free one, if they exist; `key` is the new
     * object's key, should there be one.
     */
    method Create(user: string, input: Input, subscribed: Option<int>, free: Option<int>, key: nat)
      returns (r: Result<nat, Error>)
      requires Sound() && key == |fates|
      modifies this
      ensures Sound()
      ensures var limit := ResumeLimit(subscribed, free);
              && View() == Run(parse, old(View()), Script(old(View()), Request.Create(user, input, 3), limit))
              && r == CreateAnswer(old(View()), user, input, limit)
      ensures r == Err(LimitReached) <==>
                input.file.Some? == (input.url == "") && AtLimit(old(rows), user, subscribed, free)
    {
      CreateIsRefusedIff(View(), user, input, subscribed, free);
      var limit := ResumeLimit(subscribed, free);
      ghost var s0, c := View(), |calls|;
      CreateSteps(parse, s0, user, input, limit);
      if input.file.Some? == (input.url != "") {
        RefusedCreateDoesNothing(s0, user, input, limit);
        return Err(NotExactlyOne);
      }
      var ok := AssertUnderLimit(user, limit);
      if !ok {
        RefusedCreateDoesNothing(s0, user, input, limit);
        return Err(LimitReached);
      }
      NewCallKeepsValid(parse, s0, Checked(user, input));
      calls := calls + [Checked(user, input)];
      var id;
      match input.file {
        case Some(file) =>
          var built := BuildUpload(c, user, file, key);
          if built.Err? {
            return Err(built.error);
          }
          id := SaveRow(c, built.value);
        case None =>
          id := SaveRow(c, Link(user, input.url, None));
      }
      r := Ok(id);
    }

    method DropRow(ghost c: nat, id: nat, row: Row)
      requires Sound() && c < |calls| && calls[c] == Found(id, row) && id in rows
      modifies this`rows, this`fates, this`calls
      ensures Sound() && View() == DropStep(old(View()), c)
      ensures c < |calls| && calls[c] == if row.Upload? then Dropped(row.key) else Ended
    {
      DropKeepsValid(parse, View(), c);
      assert CallSound(View(), c);
      rows := rows - {id};
      if row.Upload? {
        fates := fates[row.key := Released(c)];
        calls := calls[c := Dropped(row.key)];
      } else {
        calls := calls[c := Ended];
      }
    }

    /** The storage call at the end of a remove; its failure is swallowed. */
    method DeleteObject(ghost c: nat, key: nat, deleted: bool)
      requires Sound() && c < |calls| && calls[c] == Dropped(key)
      modifies this`objects, this`calls
      ensures Sound() && View() == DeleteStep(old(View()), c, deleted)
    {
      DeleteKeepsValid(parse, View(), c, deleted);
      if deleted {
        objects := objects - {key};
        calls := calls[c := Ended];
      } else {
        calls := calls[c := Left(key)];
      }
    }

    /** `deleted` tells whether the storage call succeeds; the caller is not told. */
    method Remove(user: string, id: nat, deleted: bool) returns (r: Option<Error>)
      requires Sound()
      modifies this
      ensures Sound()
      ensures View() == Run(parse, old(View()), Script(old(View()), Request.Remove(user, id, deleted, 3), 0))
      ensures r == if id in old(rows) && old(rows)[id].user == user then None else Some(NotFound)
    {
      ghost var s0, c := View(), |calls|;
      RemoveSteps(parse, s0, user, id, deleted);
      if id !in rows || rows[id].user != user {
        return Some(NotFound);
      }
      var resume := rows[id];
      NewCallKeepsValid(parse, s0, Found(id, resume));
      calls := calls + [Found(id, resume)];
      DropRow(c, id, resume);
      if resume.Upload? {
        DeleteObject(c, resume.key, deleted);
      }
      r := None;
    }

    method ExtractText(id: nat) returns (r: Option<string>)
      requires Sound() && id in rows
      modifies this`rows
      ensures Sound() && View() == Step(parse, old(View()), Extract(id))
      ensures r == Resumes.ExtractText(parse, objects, old(rows[id]))
      ensures Resumes.ExtractText(parse, objects, rows[id]) == r
    {
      ExtractKeepsValid(parse, View(), id);
      assert RowSound(parse, View(), id);
      var resume := rows[id];
      if resume.parsedText.Some? && resume.parsedText.value != "" {
        assert rows[id := resume] == rows;
        return resume.parsedText;
      }
      match resume {
        case Link(_, url, _) =>
          assert rows[id := resume] == rows;
          r := Some(NOTE + url);
        case Upload(user, key, mime, _) =>
          r := Reparse(parse, objects, key, mime);
          if r.None? {
            assert rows[id := resume] == rows;
            return None;
          }
          rows := rows[id := Upload(user, key, mime, r)];
      }
    }
  }
}
