/** The messages table (scripts/migrations/000001_init.sql) and the keyset page read from it
    (shared/repository/msg_repo.go). */
module MessageTable {
  import opened Domain

  const PAGE_LIMIT: nat := 100

  /** Rows in primary-key order. */
  type Table = seq<Message>

  /** Strictly ascending IDs: the primary key holds. */
  ghost predicate Sorted(t: Table) {
    forall i, j :: 0 <= i < j < |t| ==> t[i].id < t[j].id
  }

  predicate HasId(t: Table, id: nat) {
    exists m :: m in t && m.id == id
  }

  /** INSERT of a row whose key is free. */
  function InsertRow(t: Table, m: Message): Table {
    if t == [] then [m]
    else if m.id < t[0].id then [m] + t
    else [t[0]] + InsertRow(t[1..], m)
  }

  /** Every row of a conversation above a message ID, oldest first: the SELECT without its LIMIT. */
  function History(t: Table, conv: string, after: nat): seq<Message> {
    if t == [] then []
    else (if t[0].conv == conv && t[0].id > after then [t[0]] else []) + History(t[1..], conv, after)
  }

  /** The SELECT of GetMessagesSince. */
  function Page(t: Table, conv: string, after: nat): seq<Message> {
    var h := History(t, conv, after);
    if |h| <= PAGE_LIMIT then h else h[..PAGE_LIMIT]
  }

  lemma {:induction false} InsertRowMeaning(t: Table, m: Message)
    requires Sorted(t) && !HasId(t, m.id)
    ensures Sorted(InsertRow(t, m))
    ensures forall x :: x in InsertRow(t, m) <==> x in t || x == m
  {
    if t != [] {
      assert forall x :: x in t <==> x == t[0] || x in t[1..];
      if m.id >= t[0].id {
        assert t[0] in t;
        InsertRowMeaning(t[1..], m);
        var r := InsertRow(t[1..], m);
        assert forall k :: 0 <= k < |r| ==> r[k] in r;
        forall k | 0 <= k < |r| ensures t[0].id < r[k].id {
          if r[k] != m {
            var i :| 0 <= i < |t[1..]| && t[1..][i] == r[k];
            assert t[i + 1] == r[k];
          }
        }
      }
    }
  }

  lemma HistoryMeaning(t: Table, conv: string, after: nat)
    requires Sorted(t)
    ensures Sorted(History(t, conv, after))
    ensures forall m :: m in History(t, conv, after) <==> m in t && m.conv == conv && m.id > after
  {
    HistorySorted(t, conv, after);
    forall m ensures m in History(t, conv, after) <==> m in t && m.conv == conv && m.id > after {
      HistoryMember(t, conv, after, m);
    }
  }

  lemma {:induction false} HistoryMember(t: Table, conv: string, after: nat, m: Message)
    ensures m in History(t, conv, after) <==> m in t && m.conv == conv && m.id > after
  {
    if t != [] {
      HistoryMember(t[1..], conv, after, m);
      assert m in t <==> m == t[0] || m in t[1..] by { assert t == [t[0]] + t[1..]; }
    }
  }

  lemma {:induction false} HistorySorted(t: Table, conv: string, after: nat)
    requires Sorted(t)
    ensures Sorted(History(t, conv, after))
  {
    if t != [] {
      var h := History(t[1..], conv, after);
      HistorySorted(t[1..], conv, after);
      forall k | 0 <= k < |h| ensures t[0].id < h[k].id {
        assert h[k] in h;
        HistoryMember(t[1..], conv, after, h[k]);
        var i :| 0 <= i < |t[1..]| && t[1..][i] == h[k];
        assert t[i + 1] == h[k];
      }
    }
  }

  /** Rows in ID order are determined by which rows they are. */
  lemma {:induction false} SortedUnique(a: Table, b: Table)
    requires Sorted(a) && Sorted(b)
    requires forall m :: m in a <==> m in b
    ensures a == b
  {
    if a == [] {
      assert forall i :: 0 <= i < |b| ==> b[i] in b;
    } else {
      assert a[0] in a;
      assert b != [];
      assert b[0] in b;
      FirstIsLeast(a, b[0]);
      FirstIsLeast(b, a[0]);
      assert a[0] == b[0] by {
        var i :| 0 <= i < |a| && a[i] == b[0];
        var j :| 0 <= j < |b| && b[j] == a[0];
      }
      forall m ensures m in a[1..] <==> m in b[1..] {
        TailMember(a, m);
        TailMember(b, m);
      }
      SortedUnique(a[1..], b[1..]);
      assert a == [a[0]] + a[1..] && b == [b[0]] + b[1..];
    }
  }

  lemma FirstIsLeast(a: Table, m: Message)
    requires Sorted(a) && m in a
    ensures a[0].id <= m.id
  {
    var i :| 0 <= i < |a| && a[i] == m;
  }

  lemma TailMember(a: Table, m: Message)
    requires Sorted(a) && a != []
    ensures m in a[1..] <==> m in a && m != a[0]
  {
    assert a == [a[0]] + a[1..];
    if m in a[1..] {
      var i :| 0 <= i < |a[1..]| && a[1..][i] == m;
      assert a[i + 1] == m;
    }
  }

  /** What a page promises: at most 100 rows of the conversation above the cursor, in ID order, and no
      such row is skipped: one that is missing lies beyond the last row of a full page. */
  ghost predicate IsPage(t: Table, conv: string, after: nat, page: seq<Message>) {
    && |page| <= PAGE_LIMIT && Sorted(page)
    && (forall m :: m in page ==> m in t && m.conv == conv && m.id > after)
    && (forall m :: m in t && m.conv == conv && m.id > after && m !in page ==>
          |page| == PAGE_LIMIT && m.id > page[PAGE_LIMIT - 1].id)
  }

  lemma PageMeaning(t: Table, conv: string, after: nat)
    requires Sorted(t)
    ensures IsPage(t, conv, after, Page(t, conv, after))
  {
    HistoryMeaning(t, conv, after);
    var h, p := History(t, conv, after), Page(t, conv, after);
    if |h| > PAGE_LIMIT {
      SuffixAbove(h, PAGE_LIMIT);
      assert h == p + h[PAGE_LIMIT..];
    }
  }

  /** Cutting ordered rows leaves the rows above the cut. */
  lemma SuffixAbove(h: Table, n: nat)
    requires Sorted(h) && 0 < n <= |h|
    ensures Sorted(h[n..])
    ensures forall m :: m in h[n..] <==> m in h && m.id > h[n - 1].id
  {
    forall m ensures m in h[n..] <==> m in h && m.id > h[n - 1].id {
      if m in h[n..] {
        var i :| 0 <= i < |h[n..]| && h[n..][i] == m;
        assert h[i + n] == m;
      }
      if m in h && m.id > h[n - 1].id {
        var i :| 0 <= i < |h| && h[i] == m;
        assert h[n..][i - n] == m;
      }
    }
  }

  /** How many rows of the conversation lie strictly between two IDs. */
  function Below(t: Table, conv: string, after: nat, id: nat): nat {
    if t == [] then 0
    else (if t[0].conv == conv && after < t[0].id < id then 1 else 0) + Below(t[1..], conv, after, id)
  }

  lemma {:induction false} NoneBelow(t: Table, conv: string, after: nat, id: nat)
    requires forall i :: 0 <= i < |t| ==> t[i].id >= id
    ensures Below(t, conv, after, id) == 0
  {
    if t != [] { NoneBelow(t[1..], conv, after, id); }
  }

  /** A row's place in the history is the number of rows below it. */
  lemma {:induction false} HistoryIndex(t: Table, conv: string, after: nat, i: nat)
    requires Sorted(t) && i < |History(t, conv, after)|
    ensures Below(t, conv, after, History(t, conv, after)[i].id) == i
  {
    HistorySorted(t, conv, after);
    var h := History(t, conv, after);
    if t[0].conv == conv && t[0].id > after {
      if i == 0 {
        NoneBelow(t[1..], conv, after, t[0].id);
      } else {
        assert h[i] == History(t[1..], conv, after)[i - 1] && h[0].id < h[i].id;
        HistoryIndex(t[1..], conv, after, i - 1);
      }
    } else {
      HistoryIndex(t[1..], conv, after, i);
    }
  }

  /** A row is on the page exactly when fewer than 100 matching rows precede it. */
  lemma PageMemberIff(t: Table, conv: string, after: nat, x: Message)
    requires Sorted(t) && x in t
    ensures x in Page(t, conv, after) <==>
            x.conv == conv && x.id > after && Below(t, conv, after, x.id) < 100
  {
    var h, p := History(t, conv, after), Page(t, conv, after);
    HistoryMeaning(t, conv, after);
    if x in h {
      var i :| 0 <= i < |h| && h[i] == x;
      HistoryIndex(t, conv, after, i);
      if x in p {
        var j :| 0 <= j < |p| && p[j] == x;
        assert h[j] == x;
      }
      if i < PAGE_LIMIT { assert p[i] == x; }
    } else {
      assert forall m :: m in p ==> m in h;
    }
  }

  lemma {:induction false} BelowInsert(t: Table, m: Message, conv: string, after: nat, id: nat)
    ensures Below(InsertRow(t, m), conv, after, id) ==
            Below(t, conv, after, id) + (if m.conv == conv && after < m.id < id then 1 else 0)
  {
    if t == [] {
      assert [m][1..] == [];
    } else if m.id < t[0].id {
      assert ([m] + t)[1..] == t;
    } else {
      var rest := InsertRow(t[1..], m);
      assert ([t[0]] + rest)[1..] == rest;
      BelowInsert(t[1..], m, conv, after, id);
    }
  }

  /** New rows can push a stored row off a page, and never bring one onto it. */
  lemma PageOnlyRecedes(t: Table, m: Message, conv: string, after: nat, x: Message)
    requires Sorted(t) && !HasId(t, m.id) && x in t && x !in Page(t, conv, after)
    ensures x !in Page(InsertRow(t, m), conv, after)
  {
    InsertRowMeaning(t, m);
    PageMemberIff(t, conv, after, x);
    PageMemberIff(InsertRow(t, m), conv, after, x);
    BelowInsert(t, m, conv, after, x.id);
  }

  /** A page followed by the history above its last row is the history above the cursor. */
  lemma PageThenRest(t: Table, conv: string, after: nat)
    requires Sorted(t)
    ensures var p := Page(t, conv, after);
            if p == [] then History(t, conv, after) == []
            else p[|p| - 1].id > after
                 && History(t, conv, after) == p + History(t, conv, p[|p| - 1].id)
  {
    var h, p := History(t, conv, after), Page(t, conv, after);
    if p != [] {
      CutHistory(t, conv, after, |p|);
      assert h == p + h[|p|..] && h[|p| - 1] == p[|p| - 1];
    }
  }

  /** Rows left after a cut are the history above the last row before it. */
  lemma CutHistory(t: Table, conv: string, after: nat, n: nat)
    requires Sorted(t) && 0 < n <= |History(t, conv, after)|
    ensures var h := History(t, conv, after); h[n - 1].id > after && h[n..] == History(t, conv, h[n - 1].id)
  {
    var h := History(t, conv, after);
    var last := h[n - 1];
    HistorySorted(t, conv, after);
    HistorySorted(t, conv, last.id);
    HistoryMember(t, conv, after, last);
    SuffixAbove(h, n);
    forall m ensures m in h[n..] <==> m in History(t, conv, last.id) {
      HistoryMember(t, conv, after, m);
      HistoryMember(t, conv, last.id, m);
    }
    SortedUnique(h[n..], History(t, conv, last.id));
  }

  /** How the database can fail a query. */
  datatype QueryFault = NoFault | QueryFails | ScanFails(at: nat) | RowsFail

  /** GetMessagesSince: the page, or an error when the query, the scan of a row or the row stream fails. */
  method GetMessagesSince(t: Table, conv: string, lastMsgID: nat, fault: QueryFault)
    returns (r: Result<seq<Message>>)
    requires Sorted(t)
    ensures r.Ok? ==> r.value == Page(t, conv, lastMsgID) && IsPage(t, conv, lastMsgID, r.value)
    ensures r.Err? <==> fault.QueryFails? || fault.RowsFail?
                        || (fault.ScanFails? && fault.at < |Page(t, conv, lastMsgID)|)
  {
    if fault.QueryFails? {
      return Err;
    }
    var rows := Page(t, conv, lastMsgID);
    var messages := [];
    for i := 0 to |rows|
      invariant messages == rows[..i]
      invariant fault.ScanFails? ==> i <= fault.at
    {
      if fault.ScanFails? && fault.at == i {
        return Err;
      }
      messages := messages + [rows[i]];
    }
    if fault.RowsFail? {
      return Err;
    }
    PageMeaning(t, conv, lastMsgID);
    assert rows[..|rows|] == rows;
    return Ok(messages);
  }
}
