/** Single-use mail tokens: issuing one retires its predecessors, redeeming one spends it. */
module MailTokens {
  import opened Basics

  datatype TokenType = Verification | PassReset

  /** The stored hash of a raw token; SHA-256 is taken to be injective. */
  datatype Hash = Sha256(raw: string)

  datatype Row = Row(userId: string, typ: TokenType, hash: Hash, expiresAt: nat, usedAt: Option<nat>)

  datatype MailError = Unknown | AlreadyUsed | Expired

  /** History: which row was redeemed, when, and how many tokens had been issued by then. */
  datatype Redemption = Redemption(index: nat, at: nat, issuedByThen: nat)

  datatype Table = Table(rows: seq<Row>, redeemed: seq<Redemption>)

  const TOKEN_TTL_MS := 60 * 60 * 1000

  predicate SameOwner(a: Row, userId: string, typ: TokenType) {
    a.userId == userId && a.typ == typ
  }

  function Retire(row: Row, userId: string, typ: TokenType, now: nat): Row {
    if SameOwner(row, userId, typ) && row.usedAt.None? then row.(usedAt := Some(now)) else row
  }

  function Issue(t: Table, userId: string, typ: TokenType, raw: string, now: nat): Table {
    var retired := seq(|t.rows|, i requires 0 <= i < |t.rows| => Retire(t.rows[i], userId, typ, now));
    t.(rows := retired + [Row(userId, typ, Sha256(raw), now + TOKEN_TTL_MS, None)])
  }

  /** `findOne` on hash and type. */
  function Find(rows: seq<Row>, hash: Hash, typ: TokenType): (r: Option<nat>)
    ensures r.Some? ==> r.value < |rows| && rows[r.value].hash == hash && rows[r.value].typ == typ
    ensures r.None? ==> forall i :: 0 <= i < |rows| ==> !(rows[i].hash == hash && rows[i].typ == typ)
  {
    if rows == [] then None
    else
      var last := |rows| - 1;
      if rows[last].hash == hash && rows[last].typ == typ then Some(last) else Find(rows[..last], hash, typ)
  }

  function Check(t: Table, raw: string, typ: TokenType, now: nat): Result<nat, MailError> {
    match Find(t.rows, Sha256(raw), typ)
    case None => Err(Unknown)
    case Some(i) =>
      if t.rows[i].usedAt.Some? then Err(AlreadyUsed)
      else if t.rows[i].expiresAt < now then Err(Expired)
      else Ok(i)
  }

  function Redeem(t: Table, i: nat, now: nat): Table
    requires i < |t.rows|
  {
    Table(t.rows[i := t.rows[i].(usedAt := Some(now))], t.redeemed + [Redemption(i, now, |t.rows|)])
  }

  predicate Fresh(t: Table, raw: string) {
    forall i :: 0 <= i < |t.rows| ==> t.rows[i].hash != Sha256(raw)
  }

  /** A later token of the same user and type exists. */
  predicate Superseded(rows: seq<Row>, i: nat)
    requires i < |rows|
  {
    exists j :: i < j < |rows| && SameOwner(rows[j], rows[i].userId, rows[i].typ)
  }

  predicate Redeemed(t: Table, i: nat) {
    exists k :: 0 <= k < |t.redeemed| && t.redeemed[k].index == i
  }

  /** A redemption was of a live token of its time: unexpired, and the last issued of its user and type. */
  predicate Justified(rows: seq<Row>, r: Redemption) {
    && r.index < r.issuedByThen <= |rows|
    && r.at <= rows[r.index].expiresAt
    && forall j :: r.index < j < r.issuedByThen ==> !SameOwner(rows[j], rows[r.index].userId, rows[r.index].typ)
  }

  ghost predicate Valid(t: Table) {
    && (forall i, j :: 0 <= i < j < |t.rows| ==> t.rows[i].hash != t.rows[j].hash)
    && (forall i :: 0 <= i < |t.rows| ==> (t.rows[i].usedAt.Some? <==> Superseded(t.rows, i) || Redeemed(t, i)))
    && (forall k :: 0 <= k < |t.redeemed| ==> Justified(t.rows, t.redeemed[k]))
    && (forall k, l :: 0 <= k < l < |t.redeemed| ==> t.redeemed[k].index != t.redeemed[l].index)
  }

  lemma IssueSupersedes(t: Table, userId: string, typ: TokenType, raw: string, now: nat, i: nat)
    requires i < |t.rows|
    ensures Superseded(Issue(t, userId, typ, raw, now).rows, i)
       <==> Superseded(t.rows, i) || SameOwner(t.rows[i], userId, typ)
  {
    var n, u := |t.rows|, Issue(t, userId, typ, raw, now);
    if Superseded(t.rows, i) {
      var j :| i < j < n && SameOwner(t.rows[j], t.rows[i].userId, t.rows[i].typ);
      assert SameOwner(u.rows[j], u.rows[i].userId, u.rows[i].typ);
    }
    if SameOwner(t.rows[i], userId, typ) {
      assert SameOwner(u.rows[n], u.rows[i].userId, u.rows[i].typ);
    }
    if Superseded(u.rows, i) && !SameOwner(t.rows[i], userId, typ) {
      var j :| i < j <= n && SameOwner(u.rows[j], u.rows[i].userId, u.rows[i].typ);
      assert j < n && SameOwner(t.rows[j], t.rows[i].userId, t.rows[i].typ);
    }
  }

  lemma IssueKeepsValid(t: Table, userId: string, typ: TokenType, raw: string, now: nat)
    requires Valid(t) && Fresh(t, raw)
    ensures Valid(Issue(t, userId, typ, raw, now))
  {
    var n, u := |t.rows|, Issue(t, userId, typ, raw, now);
    forall k | 0 <= k < |u.redeemed| ensures Justified(u.rows, u.redeemed[k]) {
      assert Justified(t.rows, t.redeemed[k]);
    }
    forall i | 0 <= i < |u.rows|
      ensures u.rows[i].usedAt.Some? <==> Superseded(u.rows, i) || Redeemed(u, i)
    {
      if i < n {
        IssueSupersedes(t, userId, typ, raw, now, i);
        assert Redeemed(u, i) <==> Redeemed(t, i);
      } else {
        assert !Redeemed(u, n) && !Superseded(u.rows, n);
      }
    }
  }

  lemma RedeemKeepsValid(t: Table, i: nat, now: nat)
    requires Valid(t) && i < |t.rows| && t.rows[i].usedAt.None? && now <= t.rows[i].expiresAt
    ensures Valid(Redeem(t, i, now))
  {
    var u := Redeem(t, i, now);
    assert !Superseded(t.rows, i) && !Redeemed(t, i);
    forall j | 0 <= j < |t.rows|
      ensures Superseded(u.rows, j) <==> Superseded(t.rows, j)
      ensures Redeemed(u, j) <==> Redeemed(t, j) || j == i
    {
      assert forall k :: 0 <= k < |t.rows| ==> u.rows[k].userId == t.rows[k].userId && u.rows[k].typ == t.rows[k].typ;
      if Redeemed(t, j) {
        var k :| 0 <= k < |t.redeemed| && t.redeemed[k].index == j;
        assert u.redeemed[k].index == j;
      }
      assert u.redeemed[|t.redeemed|].index == i;
    }
    forall k | 0 <= k < |u.redeemed| ensures Justified(u.rows, u.redeemed[k]) {
      if k < |t.redeemed| {
        assert Justified(t.rows, t.redeemed[k]);
      }
    }
  }

  /** At most one unused token per user and type, in every valid table. */
  lemma AtMostOneUnused(t: Table, i: nat, j: nat)
    requires Valid(t) && i < |t.rows| && j < |t.rows|
    requires t.rows[i].usedAt.None? && t.rows[j].usedAt.None?
    requires SameOwner(t.rows[i], t.rows[j].userId, t.rows[j].typ)
    ensures i == j
  {
    if i < j {
      assert SameOwner(t.rows[j], t.rows[i].userId, t.rows[i].typ);
      assert Superseded(t.rows, i);
    } else if j < i {
      assert Superseded(t.rows, j);
    }
  }

  /** Issued for that type, unexpired, never redeemed, and with no later token of its user and type. */
  predicate Redeemable(t: Table, raw: string, typ: TokenType, now: nat) {
    exists i :: 0 <= i < |t.rows| && t.rows[i].hash == Sha256(raw) && t.rows[i].typ == typ
      && now <= t.rows[i].expiresAt && !Redeemed(t, i) && !Superseded(t.rows, i)
  }

  /**
   * A raw token can be redeemed exactly when it was issued for that type, is not past its hour, was never
   * redeemed, and no later token of its user and type was issued.
   */
  lemma RedeemableIff(t: Table, raw: string, typ: TokenType, now: nat)
    requires Valid(t)
    ensures Check(t, raw, typ, now).Ok? <==> Redeemable(t, raw, typ, now)
  {
    if i :| 0 <= i < |t.rows| && t.rows[i].hash == Sha256(raw) && t.rows[i].typ == typ
            && now <= t.rows[i].expiresAt && !Redeemed(t, i) && !Superseded(t.rows, i) {
      var f := Find(t.rows, Sha256(raw), typ);
      assert f.Some?;
      assert f.value == i;
      assert t.rows[i].usedAt.None?;
    }
  }

  /** A new token works exactly for its hour, and none of its predecessors works any more. */
  lemma IssuedTokenWorksForItsHour(t: Table, userId: string, typ: TokenType, raw: string, now: nat, later: nat, i: nat)
    requires Valid(t) && Fresh(t, raw) && i < |t.rows|
    ensures var u := Issue(t, userId, typ, raw, now);
            && Check(u, raw, typ, later) == (if later <= now + TOKEN_TTL_MS then Ok(|t.rows|) else Err(Expired))
            && (SameOwner(t.rows[i], userId, typ) ==> Check(u, t.rows[i].hash.raw, typ, later) == Err(AlreadyUsed))
            && (!SameOwner(t.rows[i], userId, typ) ==>
                  var earlier, kind := t.rows[i].hash.raw, t.rows[i].typ;
                  Check(u, earlier, kind, later) == Check(t, earlier, kind, later))
  {
    var n, u := |t.rows|, Issue(t, userId, typ, raw, now);
    IssueKeepsValid(t, userId, typ, raw, now);
    FindIsTheRow(u, n);
    FindIsTheRow(u, i);
    FindIsTheRow(t, i);
  }

  /** Hashes being distinct, looking a stored token up finds its own row. */
  lemma FindIsTheRow(t: Table, i: nat)
    requires Valid(t) && i < |t.rows|
    ensures Find(t.rows, t.rows[i].hash, t.rows[i].typ) == Some(i)
  {
    var f := Find(t.rows, t.rows[i].hash, t.rows[i].typ);
    assert f.Some?;
    assert t.rows[f.value].hash == t.rows[i].hash;
  }

  /** Redeeming a token spends it for good and leaves every other token as it was. */
  lemma RedeemSpendsOneToken(t: Table, i: nat, now: nat, j: nat, later: nat)
    requires Valid(t) && i < |t.rows| && j < |t.rows|
    requires t.rows[i].usedAt.None? && now <= t.rows[i].expiresAt
    ensures var u := Redeem(t, i, now);
            Check(u, t.rows[j].hash.raw, t.rows[j].typ, later) ==
              if j == i then Err(AlreadyUsed) else Check(t, t.rows[j].hash.raw, t.rows[j].typ, later)
  {
    RedeemKeepsValid(t, i, now);
    FindIsTheRow(t, j);
    FindIsTheRow(Redeem(t, i, now), j);
  }
}
