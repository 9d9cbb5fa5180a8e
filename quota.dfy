/** The daily message quota of `src/bot.ts`: `checkUserLimit` and what the
    message handler does with its result over a run of messages. */
module Quota {
  import opened Chat

  /** Admissions allowed per user and window for a user outside the admin set. */
  const MessageLimit: nat := 5

  /** The window after which a user's count restarts: 24 hours in milliseconds. */
  const ResetWindow: int := 86400000

  /** The per-user entry of `ctx.session.messageData`. */
  datatype QuotaRecord = QuotaRecord(count: nat, lastReset: int)

  /** The record the handler hands to `checkUserLimit`: a missing key and a
      stored null both read as no record. */
  function Lookup(data: map<UserId, Option<QuotaRecord>>, userId: UserId): Option<QuotaRecord>
  {
    if userId in data then data[userId] else None
  }

  /** `checkUserLimit(userId, record)` with the clock read once as `now`:
      `None` is the refusal (`null`), `Some(r)` the admitted record. */
  function CheckUserLimit(admins: set<UserId>, userId: UserId, stored: Option<QuotaRecord>, now: int): (r: Option<QuotaRecord>)
    // no record, or an expired one: the window restarts now and the call admits with count 1
    ensures stored.None? ==> r == Some(QuotaRecord(1, now))
    ensures stored.Some? && now - stored.value.lastReset >= ResetWindow ==> r == Some(QuotaRecord(1, now))
    // within the window: refused exactly when a non-admin has used the limit up;
    // otherwise the count rises by one and the window start is kept
    ensures stored.Some? && now - stored.value.lastReset < ResetWindow ==>
              (r.None? <==> userId !in admins && stored.value.count >= MessageLimit) &&
              (r.Some? ==> r.value == QuotaRecord(stored.value.count + 1, stored.value.lastReset))
    // an admin is never refused
    ensures userId in admins ==> r.Some?
  {
    var initial := if stored.None? then QuotaRecord(0, now) else stored.value;
    var current := if now - initial.lastReset >= ResetWindow then QuotaRecord(0, now) else initial;
    if userId !in admins && current.count >= MessageLimit then None
    else Some(current.(count := current.count + 1))
  }

  /** Every non-admin record in `data` is within the limit. */
  ghost predicate CountsWithinLimit(admins: set<UserId>, data: map<UserId, Option<QuotaRecord>>)
  {
    forall u :: u in data && u !in admins && data[u].Some? ==> data[u].value.count <= MessageLimit
  }

  /** Storing the gate's result (as the message handler does) keeps every
      non-admin count at or below the limit. */
  lemma GateKeepsCountsWithinLimit(admins: set<UserId>, data: map<UserId, Option<QuotaRecord>>, userId: UserId, now: int)
    requires CountsWithinLimit(admins, data)
    ensures CountsWithinLimit(admins, data[userId := CheckUserLimit(admins, userId, Lookup(data, userId), now)])
  {
  }

  /** The gate results for messages of one user arriving at times `ts`, each
      result being stored, null included, and read back by the next message. */
  function QuotaRun(admins: set<UserId>, userId: UserId, stored: Option<QuotaRecord>, ts: seq<int>): (rs: seq<Option<QuotaRecord>>)
    ensures |rs| == |ts|
    decreases |ts|
  {
    if ts == [] then []
    else
      var r := CheckUserLimit(admins, userId, stored, ts[0]);
      [r] + QuotaRun(admins, userId, r, ts[1..])
  }

  /** The number of admitted messages among gate results. */
  function Admitted(rs: seq<Option<QuotaRecord>>): nat
  {
    if rs == [] then 0 else (if rs[0].Some? then 1 else 0) + Admitted(rs[1..])
  }

  /** Counting admissions one result at a time, from the front of a run. */
  lemma {:induction false} AdmittedSnoc(rs: seq<Option<QuotaRecord>>, i: nat)
    requires i < |rs|
    ensures Admitted(rs[..i + 1]) == Admitted(rs[..i]) + (if rs[i].Some? then 1 else 0)
    decreases i
  {
    if i == 0 {
      assert rs[..1][1..] == [];
    } else {
      AdmittedSnoc(rs[1..], i - 1);
      assert rs[..i + 1][1..] == rs[1..][..i];
      assert rs[..i][1..] == rs[1..][..i - 1];
    }
  }

  /** Each message of a run sees exactly what the previous one stored. */
  lemma {:induction false} QuotaRunChainsRecords(admins: set<UserId>, userId: UserId, stored: Option<QuotaRecord>, ts: seq<int>)
    requires |ts| > 0
    ensures QuotaRun(admins, userId, stored, ts)[0] == CheckUserLimit(admins, userId, stored, ts[0])
    ensures forall i :: 0 < i < |ts| ==>
              QuotaRun(admins, userId, stored, ts)[i] == CheckUserLimit(admins, userId, QuotaRun(admins, userId, stored, ts)[i - 1], ts[i])
    decreases |ts|
  {
    var rs := QuotaRun(admins, userId, stored, ts);
    var r := CheckUserLimit(admins, userId, stored, ts[0]);
    var rest := QuotaRun(admins, userId, r, ts[1..]);
    assert rs == [r] + rest;
    if |ts| > 1 {
      QuotaRunChainsRecords(admins, userId, r, ts[1..]);
      forall i | 0 < i < |ts|
        ensures rs[i] == CheckUserLimit(admins, userId, rs[i - 1], ts[i])
      {
        if i > 1 {
          assert rs[i] == rest[i - 1] && rs[i - 1] == rest[i - 2] && ts[1..][i - 1] == ts[i];
        }
      }
    }
  }

  /** A non-admin whose record starts at count `c` in the window opened at
      `t0`: the next `MessageLimit - c` messages of the window are admitted
      with counts `c + 1` up to the limit, and the one after them is refused. */
  lemma {:induction false} NonAdminWithinWindow(admins: set<UserId>, userId: UserId, c: nat, t0: int, ts: seq<int>)
    requires userId !in admins && c <= MessageLimit
    requires forall i :: 0 <= i < |ts| ==> ts[i] - t0 < ResetWindow
    ensures forall i :: 0 <= i < |ts| && c + i < MessageLimit ==>
              QuotaRun(admins, userId, Some(QuotaRecord(c, t0)), ts)[i] == Some(QuotaRecord(c + i + 1, t0))
    ensures MessageLimit - c < |ts| ==> QuotaRun(admins, userId, Some(QuotaRecord(c, t0)), ts)[MessageLimit - c] == None
    decreases |ts|
  {
    if ts != [] {
      var rs := QuotaRun(admins, userId, Some(QuotaRecord(c, t0)), ts);
      var r := CheckUserLimit(admins, userId, Some(QuotaRecord(c, t0)), ts[0]);
      var rest := QuotaRun(admins, userId, r, ts[1..]);
      assert rs == [r] + rest;
      if c < MessageLimit {
        assert r == Some(QuotaRecord(c + 1, t0));
        NonAdminWithinWindow(admins, userId, c + 1, t0, ts[1..]);
        forall i | 0 < i < |ts| && c + i < MessageLimit
          ensures rs[i] == Some(QuotaRecord(c + i + 1, t0))
        {
          assert rs[i] == rest[i - 1];
        }
      } else {
        assert r == None;
      }
    }
  }

  /** An admin is admitted on every message of a window, and the count keeps
      growing past the limit. */
  lemma {:induction false} AdminWithinWindow(admins: set<UserId>, userId: UserId, c: nat, t0: int, ts: seq<int>)
    requires userId in admins
    requires forall i :: 0 <= i < |ts| ==> ts[i] - t0 < ResetWindow
    ensures forall i :: 0 <= i < |ts| ==>
              QuotaRun(admins, userId, Some(QuotaRecord(c, t0)), ts)[i] == Some(QuotaRecord(c + i + 1, t0))
    decreases |ts|
  {
    if ts != [] {
      var rs := QuotaRun(admins, userId, Some(QuotaRecord(c, t0)), ts);
      var r := CheckUserLimit(admins, userId, Some(QuotaRecord(c, t0)), ts[0]);
      var rest := QuotaRun(admins, userId, r, ts[1..]);
      assert rs == [r] + rest;
      assert r == Some(QuotaRecord(c + 1, t0));
      AdminWithinWindow(admins, userId, c + 1, t0, ts[1..]);
      forall i | 0 < i < |ts|
        ensures rs[i] == Some(QuotaRecord(c + i + 1, t0))
      {
        assert rs[i] == rest[i - 1];
      }
    }
  }

  /** The code as written: seven messages of a non-admin inside one window,
      starting without a record. The first five are admitted, the sixth is
      refused and its null is stored, so the seventh starts a fresh record and
      is admitted: six admissions in a window whose limit is five. */
  lemma QuotaBypassAfterRefusal(admins: set<UserId>, userId: UserId, ts: seq<int>)
    requires userId !in admins && |ts| == 7
    requires forall i :: 0 <= i < |ts| ==> ts[i] - ts[0] < ResetWindow
    ensures forall i :: 0 <= i < 5 ==> QuotaRun(admins, userId, None, ts)[i] == Some(QuotaRecord(i + 1, ts[0]))
    ensures QuotaRun(admins, userId, None, ts)[5] == None
    ensures QuotaRun(admins, userId, None, ts)[6] == Some(QuotaRecord(1, ts[6]))
    ensures Admitted(QuotaRun(admins, userId, None, ts)) == MessageLimit + 1
  {
    var rs := QuotaRun(admins, userId, None, ts);
    var r := CheckUserLimit(admins, userId, None, ts[0]);
    var rest := QuotaRun(admins, userId, r, ts[1..]);
    assert rs == [r] + rest;
    assert r == Some(QuotaRecord(1, ts[0]));
    NonAdminWithinWindow(admins, userId, 1, ts[0], ts[1..]);
    QuotaRunChainsRecords(admins, userId, None, ts);
    forall i | 0 < i < 5
      ensures rs[i] == Some(QuotaRecord(i + 1, ts[0]))
    {
      assert rs[i] == rest[i - 1];
    }
    assert rs[5] == rest[4];
    assert Admitted(rs[6..]) == 1;
    assert Admitted(rs[5..]) == 1 by { assert rs[5..][1..] == rs[6..]; }
    assert Admitted(rs[4..]) == 2 by { assert rs[4..][1..] == rs[5..]; }
    assert Admitted(rs[3..]) == 3 by { assert rs[3..][1..] == rs[4..]; }
    assert Admitted(rs[2..]) == 4 by { assert rs[2..][1..] == rs[3..]; }
    assert Admitted(rs[1..]) == 5 by { assert rs[1..][1..] == rs[2..]; }
  }

  /** Message times that never go backwards. */
  ghost predicate Ascending(ts: seq<int>)
  {
    forall i, j :: 0 <= i <= j < |ts| ==> ts[i] <= ts[j]
  }

  /** The code as written, from a record at count `c` opened at `t0`, over
      ascending times inside that window: every refusal stores null, the next
      message opens a new window at its own time, so refusals fall on every
      sixth message only and `(|ts| + c) / 6` of the messages are refused. */
  lemma {:induction false} BypassFromCount(admins: set<UserId>, userId: UserId, c: nat, t0: int, ts: seq<int>)
    requires userId !in admins && c <= MessageLimit
    requires Ascending(ts)
    requires forall i :: 0 <= i < |ts| ==> t0 <= ts[i] && ts[i] - t0 < ResetWindow
    ensures Admitted(QuotaRun(admins, userId, Some(QuotaRecord(c, t0)), ts)) == |ts| - (|ts| + c) / (MessageLimit + 1)
    decreases |ts|, 1
  {
    if ts != [] {
      var stored := Some(QuotaRecord(c, t0));
      var rs := QuotaRun(admins, userId, stored, ts);
      var r := CheckUserLimit(admins, userId, stored, ts[0]);
      var rest := QuotaRun(admins, userId, r, ts[1..]);
      assert rs == [r] + rest && rs[1..] == rest;
      if c < MessageLimit {
        assert r == Some(QuotaRecord(c + 1, t0));
        BypassFromCount(admins, userId, c + 1, t0, ts[1..]);
      } else {
        assert r == None;
        BypassFromNoRecord(admins, userId, ts[1..]);
      }
    }
  }

  /** The code as written, from no record (or a stored null), over ascending
      times inside the window the first message opens: one message in six is
      refused and all others are admitted, so there is no cap per window (11
      of 13 messages are admitted, for one). */
  lemma {:induction false} BypassFromNoRecord(admins: set<UserId>, userId: UserId, ts: seq<int>)
    requires userId !in admins
    requires Ascending(ts)
    requires forall i :: 0 <= i < |ts| ==> ts[i] - ts[0] < ResetWindow
    ensures Admitted(QuotaRun(admins, userId, None, ts)) == |ts| - |ts| / (MessageLimit + 1)
    decreases |ts|, 0
  {
    if ts != [] {
      var rs := QuotaRun(admins, userId, None, ts);
      var r := CheckUserLimit(admins, userId, None, ts[0]);
      var rest := QuotaRun(admins, userId, r, ts[1..]);
      assert rs == [r] + rest && rs[1..] == rest;
      assert r == Some(QuotaRecord(1, ts[0]));
      BypassFromCount(admins, userId, 1, ts[0], ts[1..]);
    }
  }

  /** The evidently intended handling of a refusal: the stored record is
      left as it was instead of being replaced by null. Results are those of
      the gate, as in `QuotaRun`. */
  function KeptRun(admins: set<UserId>, userId: UserId, stored: Option<QuotaRecord>, ts: seq<int>): (rs: seq<Option<QuotaRecord>>)
    ensures |rs| == |ts|
    decreases |ts|
  {
    if ts == [] then []
    else
      var r := CheckUserLimit(admins, userId, stored, ts[0]);
      [r] + KeptRun(admins, userId, if r.None? then stored else r, ts[1..])
  }

  /** With the record kept on refusal, a non-admin at count `c` gets at most
      `MessageLimit - c` more admissions in the window opened at `t0`. */
  lemma {:induction false} KeptRunStaysWithinLimit(admins: set<UserId>, userId: UserId, c: nat, t0: int, ts: seq<int>)
    requires userId !in admins && c <= MessageLimit
    requires forall i :: 0 <= i < |ts| ==> ts[i] - t0 < ResetWindow
    ensures Admitted(KeptRun(admins, userId, Some(QuotaRecord(c, t0)), ts)) <= MessageLimit - c
    decreases |ts|
  {
    if ts != [] {
      var stored := Some(QuotaRecord(c, t0));
      var rs := KeptRun(admins, userId, stored, ts);
      var r := CheckUserLimit(admins, userId, stored, ts[0]);
      assert rs[1..] == KeptRun(admins, userId, if r.None? then stored else r, ts[1..]);
      if c < MessageLimit {
        assert r == Some(QuotaRecord(c + 1, t0));
        KeptRunStaysWithinLimit(admins, userId, c + 1, t0, ts[1..]);
      } else {
        assert r == None;
        KeptRunStaysWithinLimit(admins, userId, c, t0, ts[1..]);
      }
    }
  }

  /** With the record kept on refusal, a non-admin starting without a record
      is admitted at most `MessageLimit` times in the window its first
      message opens. */
  lemma KeptRecordBoundsAdmissions(admins: set<UserId>, userId: UserId, ts: seq<int>)
    requires userId !in admins && |ts| > 0
    requires forall i :: 0 <= i < |ts| ==> ts[i] - ts[0] < ResetWindow
    ensures Admitted(KeptRun(admins, userId, None, ts)) <= MessageLimit
  {
    var rs := KeptRun(admins, userId, None, ts);
    var r := CheckUserLimit(admins, userId, None, ts[0]);
    assert r == Some(QuotaRecord(1, ts[0]));
    assert rs[1..] == KeptRun(admins, userId, r, ts[1..]);
    KeptRunStaysWithinLimit(admins, userId, 1, ts[0], ts[1..]);
  }
}
