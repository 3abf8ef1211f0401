/** Audit export pages: a bounded page per request, and the walk that follows their cursors. */
module AuditExport {
  import opened Options
  import opened Sums
  import opened Text

  /** A log entry at its place in the store's order. */
  datatype Entry = Entry(position: int, text: string)
  datatype Cursor = Cursor(version: int, scope: string, position: Option<int>)

  /** The text form of a cursor and the checks on a decoded position. */
  datatype Codec = Codec(encode: Cursor -> string, decode: string -> Option<Cursor>, canonical: int -> bool)

  datatype Request = Request(scope: string, cursor: string, limit: int)
  datatype Outcome = Invalid | Unavailable | Page(events: seq<Entry>, cursor: string, more: bool, bytes: nat)

  const ExportMaxBytes := 0x10_0000
  const ExportMaxEvents := 1000
  const ExportDefaultEvents := 100
  const CheckpointReserve := 2048
  const MaxCursor := 1024

  /** The cursors behind the log's entries survive their text form, and their positions pass the checks. */
  ghost predicate Faithful(codec: Codec, scope: string, log: seq<Entry>) {
    forall e :: e in log ==> CursorSurvives(codec, Cursor(1, scope, Some(e.position))) && codec.canonical(e.position)
  }

  predicate CursorSurvives(codec: Codec, c: Cursor) {
    codec.decode(codec.encode(c)) == Some(c) && 0 < |codec.encode(c)| <= MaxCursor
  }

  /** Whatever the scope, a log whose positions have numerals of at most MaxCursor digits has such a codec. */
  lemma {:induction false} NumeralCodecIsFaithful(scope: string, log: seq<Entry>) returns (codec: Codec)
    requires forall e :: e in log ==> e.position >= 0 && |Numeral(e.position, 10)| <= MaxCursor
    ensures Faithful(codec, scope, log)
  {
    codec := Codec(
      (c: Cursor) => if c.position.Some? && c.position.value >= 0 then Numeral(c.position.value, 10) else "",
      (s: string) => if s != "" && Decimal(s) then Some(Cursor(1, scope, Some(NumeralValue(s, 10)))) else None,
      (position: int) => position >= 0);
    forall e | e in log
      ensures CursorSurvives(codec, Cursor(1, scope, Some(e.position)))
    {
      NumeralRoundTrip(e.position, 10);
      NumeralIsDecimal(e.position);
    }
  }

  ghost predicate Ordered(log: seq<Entry>) {
    forall i, j :: 0 <= i < j < |log| ==> log[i].position < log[j].position
  }

  // ----- The store

  /** How many entries a cursor position has behind it. */
  function Passed(log: seq<Entry>, position: Option<int>): (c: nat)
    ensures c <= |log|
    ensures forall k :: 0 <= k < c ==> position.Some? && log[k].position <= position.value
    ensures c < |log| ==> position.None? || position.value < log[c].position
  {
    if log == [] || position.None? || position.value < log[0].position then 0 else 1 + Passed(log[1..], position)
  }

  /** ReadExport: up to k entries after a position, in order. */
  function Read(log: seq<Entry>, position: Option<int>, k: nat): seq<Entry> {
    var c := Passed(log, position);
    if c + k <= |log| then log[c..c + k] else log[c..]
  }

  lemma {:induction false} PassedAt(log: seq<Entry>, i: nat)
    requires Ordered(log) && 0 < i <= |log|
    ensures Passed(log, Some(log[i - 1].position)) == i
  {
    if i > 1 {
      assert log[0].position < log[i - 1].position;
      PassedAt(log[1..], i - 1);
    }
  }

  // ----- One page

  function Bytes(size: Entry -> nat, s: seq<Entry>): nat {
    if s == [] then 0 else Bytes(size, s[..|s| - 1]) + size(s[|s| - 1]) + 1
  }

  predicate Fits(size: Entry -> nat, e: Entry) {
    size(e) + 1 <= ExportMaxBytes - CheckpointReserve
  }

  /** The first entries that a page takes: as many as the limit and the bytes allow. */
  ghost predicate FullPage(size: Entry -> nat, entries: seq<Entry>, limit: nat, count: nat) {
    && count <= limit && count <= |entries| && Bytes(size, entries[..count]) <= ExportMaxBytes - CheckpointReserve
    && (count < limit && count < |entries| ==> Bytes(size, entries[..count + 1]) > ExportMaxBytes - CheckpointReserve)
  }

  lemma {:induction false} BytesGrow(size: Entry -> nat, s: seq<Entry>, i: nat, j: nat)
    requires i <= j <= |s|
    ensures Bytes(size, s[..i]) <= Bytes(size, s[..j])
    decreases j
  {
    if i < j {
      BytesGrow(size, s, i, j - 1);
      assert s[..j][..j - 1] == s[..j - 1];
    }
  }

  lemma {:induction false} FullPageIsUnique(size: Entry -> nat, entries: seq<Entry>, limit: nat, a: nat, b: nat)
    requires FullPage(size, entries, limit, a) && FullPage(size, entries, limit, b)
    ensures a == b
  {
    if a < b {
      BytesGrow(size, entries, a + 1, b);
    } else if b < a {
      BytesGrow(size, entries, b + 1, a);
    }
  }

  /** parseExportRequest. */
  function Parsed(codec: Codec, r: Request): Option<(Cursor, nat)> {
    var limit := if r.limit == 0 then ExportDefaultEvents else r.limit;
    if limit < 1 || limit > ExportMaxEvents || |r.cursor| > MaxCursor then None
    else if r.cursor == "" then Some((Cursor(1, r.scope, None), limit))
    else
      var decoded := codec.decode(r.cursor);
      if decoded.None? || decoded.value.version != 1 || decoded.value.scope != r.scope then None
      else if decoded.value.position.Some? && !codec.canonical(decoded.value.position.value) then None
      else Some((decoded.value, limit))
  }

  /** A request is accepted exactly when its limit, 100 if none is given, is at most 1000, and its cursor,
      if it has one, fits the size bound, decodes, is of version 1 and of this scope, and has a canonical position
      or none. */
  lemma {:induction false} ParsedExactly(codec: Codec, r: Request)
    ensures Parsed(codec, r).Some? <==>
              && 0 <= r.limit <= 1000 && |r.cursor| <= 1024
              && (r.cursor != "" ==>
                    && codec.decode(r.cursor).Some? && codec.decode(r.cursor).value.version == 1
                    && codec.decode(r.cursor).value.scope == r.scope
                    && (codec.decode(r.cursor).value.position.Some? ==>
                          codec.canonical(codec.decode(r.cursor).value.position.value)))
    ensures Parsed(codec, r).Some? ==>
              && Parsed(codec, r).value.0 ==
                 (if r.cursor == "" then Cursor(1, r.scope, None) else codec.decode(r.cursor).value)
              && Parsed(codec, r).value.1 == (if r.limit == 0 then 100 else r.limit)
  {
  }

  /** A page holds its entries and one line end for each. */
  lemma {:induction false} BytesExactly(size: Entry -> nat, s: seq<Entry>)
    ensures Bytes(size, s) == SumOf(s, (e: Entry) => size(e)) + |s|
  {
    if s != [] {
      var init, last := s[..|s| - 1], s[|s| - 1];
      assert s == init + [last];
      BytesExactly(size, init);
      SumOfPush(init, last, (e: Entry) => size(e));
    }
  }

  method FillPage(entries: seq<Entry>, limit: nat, size: Entry -> nat, cursor: Cursor)
    returns (count: nat, bytes: nat, position: Option<int>, more: bool)
    requires limit > 0
    ensures FullPage(size, entries, limit, count) && bytes == Bytes(size, entries[..count])
    ensures position == if count == 0 then cursor.position else Some(entries[count - 1].position)
    ensures more <==> count < |entries|
  {
    count, bytes, position, more := 0, 0, cursor.position, |entries| > limit;
    for i := 0 to |entries|
      invariant count == i <= limit && bytes == Bytes(size, entries[..i]) <= ExportMaxBytes - CheckpointReserve
      invariant position == if i == 0 then cursor.position else Some(entries[i - 1].position)
      invariant more <==> |entries| > limit
    {
      assert entries[..i + 1][..i] == entries[..i];
      if count >= limit {
        break;
      }
      if bytes + size(entries[i]) + 1 > ExportMaxBytes - CheckpointReserve {
        more := true;
        break;
      }
      bytes := bytes + size(entries[i]) + 1;
      position := Some(entries[i].position);
      count := count + 1;
    }
  }

  /** The full page after a cursor, with the cursor behind its last entry. */
  ghost predicate NextPage(log: seq<Entry>, codec: Codec, size: Entry -> nat, checkpoint: Cursor -> nat,
                           cursor: Cursor, limit: nat, out: Outcome) {
    var from := Passed(log, cursor.position);
    && out.Page? && |out.events| <= |log| - from && out.events == log[from..from + |out.events|]
    && FullPage(size, log[from..], limit, |out.events|)
    && (out.more <==> from + |out.events| < |log|)
    && var next := cursor.(position := if out.events == [] then cursor.position
                                       else Some(out.events[|out.events| - 1].position));
       out.cursor == codec.encode(next) && out.bytes == Bytes(size, out.events) + checkpoint(next) <= ExportMaxBytes
  }

  /** A cursor and a limit determine the page. */
  lemma {:induction false} PageIsUnique(log: seq<Entry>, codec: Codec, size: Entry -> nat, checkpoint: Cursor -> nat,
                                        cursor: Cursor, limit: nat, a: Outcome, b: Outcome)
    requires NextPage(log, codec, size, checkpoint, cursor, limit, a)
    requires NextPage(log, codec, size, checkpoint, cursor, limit, b)
    ensures a == b
  {
    hide FullPage, Bytes, Passed;
    FullPageIsUnique(size, log[Passed(log, cursor.position)..], limit, |a.events|, |b.events|);
  }

  /** ExportPage over a fixed log: the next full page, and whether entries remain after its cursor. */
  method ExportPage(log: seq<Entry>, codec: Codec, size: Entry -> nat, checkpoint: Cursor -> nat, r: Request)
    returns (out: Outcome)
    requires Ordered(log)
    ensures out.Invalid? <==> Parsed(codec, r).None?
    ensures (forall c :: checkpoint(c) <= CheckpointReserve) ==> !out.Unavailable?
    ensures out.Page? ==>
              NextPage(log, codec, size, checkpoint, Parsed(codec, r).value.0, Parsed(codec, r).value.1, out)
  {
    hide FullPage, Bytes, Passed, Read, Ordered;
    var parsed := Parsed(codec, r);
    if parsed.None? {
      return Invalid;
    }
    var (cursor, limit) := parsed.value;
    var entries := Read(log, cursor.position, limit + 1);
    var count, bytes, position, more := FillPage(entries, limit, size, cursor);
    var next := cursor.(position := position);
    var total := bytes + checkpoint(next);
    ReadIsPrefix(log, cursor.position, limit, size, count);
    WithinReserve(size, entries, limit, count);
    if total > ExportMaxBytes {
      return Unavailable;
    }
    out := Page(entries[..count], codec.encode(next), more, total);
  }

  lemma {:induction false} WithinReserve(size: Entry -> nat, entries: seq<Entry>, limit: nat, count: nat)
    requires FullPage(size, entries, limit, count)
    ensures Bytes(size, entries[..count]) <= ExportMaxBytes - CheckpointReserve && count <= |entries|
  {
  }

  /** Reading one entry more than the limit is enough to fill the page and to see whether entries remain. */
  lemma {:induction false} ReadIsPrefix(log: seq<Entry>, position: Option<int>, limit: nat, size: Entry -> nat,
                                        count: nat)
    requires limit > 0 && FullPage(size, Read(log, position, limit + 1), limit, count)
    ensures var from := Passed(log, position);
            && FullPage(size, log[from..], limit, count) && from + count <= |log|
            && Read(log, position, limit + 1)[..count] == log[from..from + count]
            && (count < |Read(log, position, limit + 1)| <==> from + count < |log|)
  {
    hide FullPage;
    var all := log[Passed(log, position)..];
    var m := if |all| < limit + 1 then |all| else limit + 1;
    assert Read(log, position, limit + 1) == all[..m];
    PrefixPage(size, all, m, limit, count);
    assert all[..m][..count] == all[..count];
  }

  lemma {:induction false} PrefixPage(size: Entry -> nat, all: seq<Entry>, m: nat, limit: nat, count: nat)
    requires m <= |all| && (m == |all| || m == limit + 1) && FullPage(size, all[..m], limit, count)
    ensures FullPage(size, all, limit, count) && count <= m && (count < m <==> count < |all|)
  {
    assert all[..m][..count] == all[..count];
    if count < m {
      assert all[..m][..count + 1] == all[..count + 1];
    }
  }

  // ----- The walk

  /** Some page length from a place in the log; it is unique. */
  lemma {:induction false} PageExists(size: Entry -> nat, entries: seq<Entry>, limit: nat) returns (count: nat)
    requires limit > 0
    ensures FullPage(size, entries, limit, count)
  {
    count := 0;
    while count < limit && count < |entries| && Bytes(size, entries[..count + 1]) <= ExportMaxBytes - CheckpointReserve
      invariant count <= limit && count <= |entries|
                && Bytes(size, entries[..count]) <= ExportMaxBytes - CheckpointReserve
      decreases |entries| - count
    {
      count := count + 1;
    }
  }

  /** A page is empty exactly at the end of the log or before an entry too large for any page. */
  lemma {:induction false} StuckExactly(size: Entry -> nat, log: seq<Entry>, from: nat, limit: nat, count: nat)
    requires limit > 0 && from <= |log| && FullPage(size, log[from..], limit, count)
    ensures count == 0 <==> from == |log| || !Fits(size, log[from])
  {
    if from < |log| {
      assert log[from..][..1] == [log[from]];
      assert [log[from]][..0] == [];
      assert Bytes(size, [log[from]]) == size(log[from]) + 1;
      if count > 0 {
        BytesGrow(size, log[from..], 1, count);
      }
    }
  }

  /** Following the cursors of a log whose entries all fit yields every entry once, in order, and ends. */
  method Walk(log: seq<Entry>, codec: Codec, size: Entry -> nat, checkpoint: Cursor -> nat, scope: string, limit: int)
    returns (all: seq<Entry>, pages: nat)
    requires Ordered(log) && Faithful(codec, scope, log) && (forall c :: checkpoint(c) <= CheckpointReserve)
    requires 0 <= limit <= ExportMaxEvents
    requires forall e :: e in log ==> Fits(size, e)
    ensures all == log && 1 <= pages <= |log| + 1
  {
    hide Faithful, FullPage, Fits, Parsed, Ordered, Passed;
    var effective := if limit == 0 then ExportDefaultEvents else limit;
    all, pages := [], 0;
    var cursor, more := "", true;
    ghost var place := Cursor(1, scope, None);
    FirstRequest(codec, log, scope, limit);
    while more
      invariant |all| <= |log| && all == log[..|all|] && Passed(log, place.position) == |all|
      invariant Parsed(codec, Request(scope, cursor, limit)) == Some((place, effective))
      invariant place.version == 1 && place.scope == scope
      invariant !more ==> |all| == |log|
      invariant pages <= |all| + (if more then 0 else 1) && (pages == 0 ==> more)
      decreases |log| - |all|, more
    {
      var page := ExportPage(log, codec, size, checkpoint, Request(scope, cursor, limit));
      var from := |all|;
      StuckExactly(size, log, from, effective, |page.events|);
      if page.events != [] {
        PassedAt(log, from + |page.events|);
        assert page.events[|page.events| - 1] == log[from + |page.events| - 1];
        place := place.(position := Some(page.events[|page.events| - 1].position));
        CursorAccepted(codec, log, place, scope, limit, from + |page.events| - 1);
        cursor := page.cursor;
      }
      assert log[..from] + log[from..from + |page.events|] == log[..from + |page.events|];
      all, more, pages := all + page.events, page.more, pages + 1;
    }
    assert log[..|log|] == log;
  }

  lemma {:induction false} FirstRequest(codec: Codec, log: seq<Entry>, scope: string, limit: int)
    requires 0 <= limit <= ExportMaxEvents
    ensures Passed(log, None) == 0
    ensures Parsed(codec, Request(scope, "", limit)) ==
            Some((Cursor(1, scope, None), if limit == 0 then ExportDefaultEvents else limit))
  {
  }

  lemma {:induction false} CursorAccepted(codec: Codec, log: seq<Entry>, c: Cursor, scope: string, limit: int, i: nat)
    requires Faithful(codec, scope, log) && i < |log| && c == Cursor(1, scope, Some(log[i].position))
             && 0 <= limit <= ExportMaxEvents
    ensures Parsed(codec, Request(scope, codec.encode(c), limit)) ==
            Some((c, if limit == 0 then ExportDefaultEvents else limit))
  {
  }

  /** The places in the log that k pages lead to. */
  ghost predicate Reaches(size: Entry -> nat, log: seq<Entry>, limit: nat, from: nat, k: nat, to: nat)
    requires from <= |log|
    decreases k
  {
    if k == 0 then to == from
    else exists count :: FullPage(size, log[from..], limit, count) && Reaches(size, log, limit, from + count, k - 1, to)
  }

  lemma {:induction false} NeverPast(size: Entry -> nat, log: seq<Entry>, limit: nat, from: nat, k: nat, to: nat,
                                     large: nat)
    requires limit > 0 && from <= large < |log| && !Fits(size, log[large]) && Reaches(size, log, limit, from, k, to)
    ensures to <= large
    decreases k
  {
    if k > 0 {
      var count :| FullPage(size, log[from..], limit, count) && Reaches(size, log, limit, from + count, k - 1, to);
      if from + count > large {
        LargeInPage(size, log, from, count, large);
      }
      NeverPast(size, log, limit, from + count, k - 1, to, large);
    }
  }

  lemma {:induction false} LargeInPage(size: Entry -> nat, log: seq<Entry>, from: nat, count: nat, large: nat)
    requires from <= large < from + count <= |log| && !Fits(size, log[large])
    ensures Bytes(size, log[from..][..count]) > ExportMaxBytes - CheckpointReserve
  {
    var i := large - from;
    BytesGrow(size, log[from..], i + 1, count);
    assert log[from..][..i + 1][..i] == log[from..][..i];
    assert log[from..][..i + 1][i] == log[large];
  }

  lemma {:induction false} ReachesEnd(size: Entry -> nat, log: seq<Entry>, limit: nat, from: nat) returns (k: nat)
    requires limit > 0 && from <= |log| && forall e :: e in log ==> Fits(size, e)
    ensures Reaches(size, log, limit, from, k, |log|)
    decreases |log| - from
  {
    k := 0;
    if from < |log| {
      var count := PageExists(size, log[from..], limit);
      StuckExactly(size, log, from, limit, count);
      var rest := ReachesEnd(size, log, limit, from + count);
      k := rest + 1;
    }
  }

  lemma {:induction false} EndNeedsFit(size: Entry -> nat, log: seq<Entry>, limit: nat, k: nat)
    requires limit > 0 && Reaches(size, log, limit, 0, k, |log|)
    ensures forall e :: e in log ==> Fits(size, e)
  {
    hide Reaches, Fits;
    forall e | e in log
      ensures Fits(size, e)
    {
      var i: nat :| i < |log| && log[i] == e;
      if !Fits(size, log[i]) {
        NeverPast(size, log, limit, 0, k, |log|, i);
      }
    }
  }

  ghost predicate Ends(size: Entry -> nat, log: seq<Entry>, limit: nat) {
    exists k: nat :: Reaches(size, log, limit, 0, k, |log|)
  }

  /** For any limit, some number of pages gets through the log exactly when every entry fits an empty page. */
  lemma {:induction false} WalkEndsExactly(size: Entry -> nat, log: seq<Entry>, limit: nat)
    requires limit > 0
    ensures Ends(size, log, limit) <==> forall e :: e in log ==> Fits(size, e)
  {
    hide Fits, Reaches;
    if Ends(size, log, limit) {
      var k: nat :| Reaches(size, log, limit, 0, k, |log|);
      EndNeedsFit(size, log, limit, k);
    }
    if forall e :: e in log ==> Fits(size, e) {
      var k := ReachesEnd(size, log, limit, 0);
    }
  }
}
