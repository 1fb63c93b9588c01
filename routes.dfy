/**
 * The server's request and socket handlers, over the database tables held
 * as sequences and maps: the upload extension whitelists, the search guard,
 * the message history page, conversation creation, message sending and the
 * typing relay.
 */
module Routes {
  import opened Wrappers
  import opened Text
  import opened Wire
  import opened Models

  /* ---------- upload extension whitelists ---------- */

  const VoiceExtensions: set<string> := {"mp3", "wav", "ogg", "m4a", "webm"}
  const ImageExtensions: set<string> := {"png", "jpg", "jpeg", "gif", "webp"}

  /** Position `i` holds the last '.' of `f`. */
  predicate LastDotAt(f: string, i: int) {
    0 <= i < |f| && f[i] == '.' && forall k :: i < k < |f| ==> f[k] != '.'
  }

  /** The index of the last '.' of `f`, or -1 when there is none. */
  function LastDot(f: string): (i: int)
    ensures -1 <= i < |f|
    ensures i >= 0 ==> LastDotAt(f, i)
    ensures i == -1 ==> '.' !in f
  {
    if f == [] then -1
    else if f[|f| - 1] == '.' then |f| - 1
    else
      var i := LastDot(f[..|f| - 1]);
      assert i == -1 ==> forall k :: 0 <= k < |f| ==> f[k] != '.' by {
        if i == -1 {
          forall k | 0 <= k < |f| ensures f[k] != '.' {
            if k < |f| - 1 { assert f[..|f| - 1][k] == f[k]; }
          }
        }
      }
      i
  }

  /**
   * The shape shared by both whitelists: a '.' and an allowed lower-cased
   * `f.rsplit('.', 1)[1]`, the text after the last '.'.
   */
  predicate AllowedFile(f: string, extensions: set<string>) {
    '.' in f && Lower(f[LastDot(f) + 1..]) in extensions
  }

  lemma LastDotUnique(f: string, d: int, j: int)
    requires LastDotAt(f, d) && LastDotAt(f, j)
    ensures j == d
  {
    if j < d { assert false; } else if d < j { assert false; }
  }

  /** The whitelist accepts exactly names whose text after the LAST '.' lower-cases into the set. */
  lemma AllowedFileIff(f: string, extensions: set<string>)
    ensures AllowedFile(f, extensions) <==>
      exists i :: LastDotAt(f, i) && Lower(f[i + 1..]) in extensions
  {
    var d := LastDot(f);
    if d >= 0 {
      assert '.' in f by { assert f[d] == '.'; }
      if i :| LastDotAt(f, i) && Lower(f[i + 1..]) in extensions {
        LastDotUnique(f, d, i);
      }
    }
  }

  /** `allowed_voice_file`. */
  predicate AllowedVoiceFile(f: string)
    ensures AllowedVoiceFile(f) <==> exists i :: LastDotAt(f, i) && Lower(f[i + 1..]) in VoiceExtensions
  {
    AllowedFileIff(f, VoiceExtensions);
    AllowedFile(f, VoiceExtensions)
  }

  /** `allowed_image_file`. */
  predicate AllowedImageFile(f: string)
    ensures AllowedImageFile(f) <==> exists i :: LastDotAt(f, i) && Lower(f[i + 1..]) in ImageExtensions
  {
    AllowedFileIff(f, ImageExtensions);
    AllowedFile(f, ImageExtensions)
  }

  /** The file name the browser client gives every voice upload passes the voice whitelist. */
  lemma ClientVoiceUploadNameAllowed()
    ensures AllowedVoiceFile("voice_message.webm")
  {
    var f := "voice_message.webm";
    assert LastDotAt(f, 13);
    assert Lower(f[14..]) == "webm";
  }

  /* ---------- search ---------- */

  const SearchUserLimit := 10
  const SearchMessageLimit := 20

  datatype SearchResults = SearchResults(users: seq<User>, messages: seq<MessageRow>)

  function Take<T>(s: seq<T>, n: nat): (r: seq<T>)
    ensures r <= s
    ensures |r| == if |s| <= n then |s| else n
  {
    if |s| <= n then s else s[..n]
  }

  /**
   * The search route. `userMatches` and `messageMatches` stand for the two
   * database queries' results in their order (users other than the caller
   * whose name or email contains the query, and the caller's undeleted
   * messages containing it, newest first).
   */
  function Search(rawQuery: string, searchType: string, userMatches: seq<User>, messageMatches: seq<MessageRow>): (r: SearchResults)
    ensures AllSpace(rawQuery, Python) ==> r.users == [] && r.messages == []
    ensures |r.users| <= SearchUserLimit && |r.messages| <= SearchMessageLimit
    ensures r.users <= userMatches && r.messages <= messageMatches
    ensures searchType !in {"all", "users"} ==> r.users == []
    ensures searchType !in {"all", "messages"} ==> r.messages == []
    ensures !AllSpace(rawQuery, Python) && searchType in {"all", "users"} ==>
      r.users == if |userMatches| <= SearchUserLimit then userMatches else userMatches[..SearchUserLimit]
    ensures !AllSpace(rawQuery, Python) && searchType in {"all", "messages"} ==>
      r.messages == if |messageMatches| <= SearchMessageLimit then messageMatches else messageMatches[..SearchMessageLimit]
  {
    var query := Strip(rawQuery);
    if query == [] then SearchResults([], [])
    else
      SearchResults(
        if searchType in {"all", "users"} then Take(userMatches, SearchUserLimit) else [],
        if searchType in {"all", "messages"} then Take(messageMatches, SearchMessageLimit) else [])
  }

  /* ---------- message history page ---------- */

  const PerPage := 50

  predicate NewestFirst(s: seq<MessageRow>) {
    forall i, j :: 0 <= i < j < |s| ==> s[i].createdAt >= s[j].createdAt
  }

  predicate OldestFirst(s: seq<MessageRow>) {
    forall i, j :: 0 <= i < j < |s| ==> s[i].createdAt <= s[j].createdAt
  }

  lemma ConsNewestFirst(x: MessageRow, rest: seq<MessageRow>)
    requires NewestFirst(rest)
    requires forall y :: y in rest ==> y.createdAt <= x.createdAt
    ensures NewestFirst([x] + rest)
  {
    var r := [x] + rest;
    forall i, j | 0 <= i < j < |r| ensures r[i].createdAt >= r[j].createdAt {
      assert r[j] == rest[j - 1];
      if i > 0 {
        assert r[i] == rest[i - 1];
      }
    }
  }

  function InsertNewestFirst(m: MessageRow, s: seq<MessageRow>): (r: seq<MessageRow>)
    requires NewestFirst(s)
    ensures NewestFirst(r) && multiset(r) == multiset(s) + multiset{m}
  {
    if s == [] then [m]
    else
      assert s == [s[0]] + s[1..];
      if s[0].createdAt <= m.createdAt then
        ConsNewestFirst(m, s);
        [m] + s
      else
        var rest := InsertNewestFirst(m, s[1..]);
        forall x | x in rest ensures x.createdAt <= s[0].createdAt {
          assert x in multiset(rest);
        }
        ConsNewestFirst(s[0], rest);
        [s[0]] + rest
  }

  /** `order_by(created_at.desc())`: the rows newest first, as a permutation of the input. */
  function SortNewestFirst(s: seq<MessageRow>): (r: seq<MessageRow>)
    ensures NewestFirst(r) && multiset(r) == multiset(s) && |r| == |s|
  {
    if s == [] then []
    else
      assert s == [s[0]] + s[1..];
      InsertNewestFirst(s[0], SortNewestFirst(s[1..]))
  }

  function Reverse<T>(s: seq<T>): (r: seq<T>)
    ensures |r| == |s| && forall k :: 0 <= k < |s| ==> r[k] == s[|s| - 1 - k]
  {
    if s == [] then [] else Reverse(s[1..]) + [s[0]]
  }

  /** The row itself when it is visible in conversation `cid`, else nothing. */
  function VisibleFirst(m: MessageRow, cid: ConvId): seq<MessageRow> {
    if m.conversationId == cid && !m.isDeleted then [m] else []
  }

  /** The rows of conversation `cid` that are not deleted, in table order. */
  function Visible(rows: seq<MessageRow>, cid: ConvId): (r: seq<MessageRow>)
    ensures forall m :: m in r <==> m in rows && m.conversationId == cid && !m.isDeleted
    ensures forall m :: multiset(r)[m] == if m.conversationId == cid && !m.isDeleted then multiset(rows)[m] else 0
    ensures |r| <= |rows|
  {
    if rows == [] then []
    else
      assert rows == [rows[0]] + rows[1..];
      VisibleFirst(rows[0], cid) + Visible(rows[1..], cid)
  }

  /**
   * A row added at the end of the table is added at the end of `Visible`
   * exactly when it is visible: with `Visible([], cid) == []` this fixes
   * `Visible` as the order-preserving filter of the table.
   */
  lemma {:induction false} VisibleAppend(rows: seq<MessageRow>, x: MessageRow, cid: ConvId)
    ensures Visible(rows + [x], cid) == Visible(rows, cid) + VisibleFirst(x, cid)
    decreases |rows|
  {
    if rows == [] {
      assert rows + [x] == [x];
      assert [x][1..] == [];
    } else {
      var t := rows + [x];
      assert t[1..] == rows[1..] + [x];
      VisibleHead(t, cid);
      VisibleAppend(rows[1..], x, cid);
      VisibleHead(rows, cid);
      ConcatAssoc(VisibleFirst(rows[0], cid), Visible(rows[1..], cid), VisibleFirst(x, cid));
    }
  }

  /** One step of the filter: the first row, if visible, then the filter of the rest. */
  lemma VisibleHead(rows: seq<MessageRow>, cid: ConvId)
    requires rows != []
    ensures Visible(rows, cid) == VisibleFirst(rows[0], cid) + Visible(rows[1..], cid)
  {
  }

  lemma ConcatAssoc<T>(a: seq<T>, b: seq<T>, c: seq<T>)
    ensures a + (b + c) == (a + b) + c
  {
  }

  /** Reversing a newest-first run gives an oldest-first run of the same rows. */
  lemma ReverseNewestFirst(s: seq<MessageRow>)
    requires NewestFirst(s)
    ensures OldestFirst(Reverse(s))
    ensures forall m :: m in Reverse(s) <==> m in s
  {
    var r := Reverse(s);
    forall m | m in s ensures m in r {
      var k :| 0 <= k < |s| && s[k] == m;
      assert r[|s| - 1 - k] == m;
    }
  }

  /** In a newest-first sequence, everything newer than a row of a prefix is in that prefix. */
  lemma NewerInPrefix(s: seq<MessageRow>, n: nat, m: MessageRow, x: MessageRow)
    requires NewestFirst(s) && n <= |s|
    requires m in s && x in s[..n] && m.createdAt > x.createdAt
    ensures m in s[..n]
  {
    var a :| 0 <= a < |s| && s[a] == m;
    var b :| 0 <= b < n && s[..n][b] == x;
    assert s[b] == x;
    assert a < b;
    assert s[..n][a] == m;
  }

  /** What `HistoryPage` needs about the slice it takes from the sorted rows. */
  lemma PageFacts(visible: seq<MessageRow>, sorted: seq<MessageRow>, p: int, lo: int, hi: int)
    requires NewestFirst(sorted) && multiset(sorted) == multiset(visible)
    requires 0 <= lo <= hi <= |sorted|
    requires p == 1 ==> lo == 0
    ensures forall m :: m in sorted <==> m in visible
    ensures forall m :: m in sorted[lo..hi] ==> m in visible
    ensures p == 1 ==> forall m, x :: m in visible && x in sorted[lo..hi] && m.createdAt > x.createdAt ==> m in sorted[lo..hi]
    ensures p == 1 && hi == |sorted| ==> sorted[lo..hi] == sorted
  {
    forall m ensures m in sorted <==> m in visible {
      assert m in sorted <==> m in multiset(sorted);
      assert m in visible <==> m in multiset(visible);
    }
    if p == 1 {
      forall m, x | m in visible && x in sorted[lo..hi] && m.createdAt > x.createdAt
        ensures m in sorted[lo..hi]
      {
        assert sorted[lo..hi] == sorted[..hi];
        NewerInPrefix(sorted, hi, m, x);
      }
    }
  }

  /** Flask-SQLAlchemy's `paginate(error_out=False)` reads a page below 1 as page 1. */
  function EffectivePage(page: int): (p: int)
    ensures p >= 1 && (page >= 1 ==> p == page)
    ensures page < 1 ==> p == 1
  {
    if page < 1 then 1 else page
  }

  /** The rows up to the end of page `page`: 50 per page so far, at most all of them. */
  function PageEnd(total: nat, page: int): (hi: nat)
    ensures hi <= total && hi <= EffectivePage(page) * PerPage
    ensures hi == total || hi == EffectivePage(page) * PerPage
  {
    if EffectivePage(page) * PerPage < total then EffectivePage(page) * PerPage else total
  }

  /** The rows before page `page`: none before the first page, and each later page starts where the one before it ended. */
  function PageStart(total: nat, page: int): (lo: nat)
    ensures lo <= total
    ensures page <= 1 ==> lo == 0
    ensures EffectivePage(page) >= 2 ==> lo == PageEnd(total, EffectivePage(page) - 1)
  {
    var skipped := (EffectivePage(page) - 1) * PerPage;
    if skipped < total then skipped else total
  }

  /** How many rows page `page` of a history of `total` rows holds: 50, what is left after the earlier pages, or none. */
  function PageLength(total: nat, page: int): (n: nat)
    ensures n <= PerPage
    ensures n == 0 <==> total <= (EffectivePage(page) - 1) * PerPage
    ensures n == PageEnd(total, page) - PageStart(total, page)
    ensures n < PerPage ==> PageEnd(total, page) == total
  {
    var skipped := (EffectivePage(page) - 1) * PerPage;
    if total <= skipped then 0 else if total - skipped < PerPage then total - skipped else PerPage
  }

  /**
   * One page of history: the rows sorted newest first, the `page`-th run of
   * 50, reversed so that the client receives it oldest first. The first page
   * holds the newest rows: anything newer than a returned row is returned.
   */
  function HistoryPage(visible: seq<MessageRow>, page: int): (r: seq<MessageRow>)
    ensures |r| == PageLength(|visible|, page) && OldestFirst(r)
    ensures forall m :: m in r ==> m in visible
    ensures page <= 1 ==> forall m, x :: m in visible && x in r && m.createdAt > x.createdAt ==> m in r
    ensures page <= 1 && |visible| <= PerPage ==> forall m :: m in r <==> m in visible
  {
    var sorted := SortNewestFirst(visible);
    var lo, hi := PageStart(|visible|, page), PageEnd(|visible|, page);
    var items := sorted[lo..hi];
    assert NewestFirst(items);
    ReverseNewestFirst(items);
    PageFacts(visible, sorted, EffectivePage(page), lo, hi);
    Reverse(items)
  }

  /** Pages 1 to `k`, each turned back to newest first, laid end to end. */
  function PagesNewestFirst(visible: seq<MessageRow>, k: nat): seq<MessageRow> {
    if k == 0 then [] else PagesNewestFirst(visible, k - 1) + Reverse(HistoryPage(visible, k))
  }

  lemma ReverseReverse<T>(s: seq<T>)
    ensures Reverse(Reverse(s)) == s
  {
  }

  /** A page turned back is its slice of the newest-first order. */
  lemma PageIsSlice(visible: seq<MessageRow>, k: nat)
    requires k >= 1
    ensures var sorted := SortNewestFirst(visible);
      Reverse(HistoryPage(visible, k)) == sorted[PageStart(|visible|, k)..PageEnd(|visible|, k)]
  {
    var sorted := SortNewestFirst(visible);
    ReverseReverse(sorted[PageStart(|visible|, k)..PageEnd(|visible|, k)]);
  }

  /** Reading page `k` adds its slice of the newest-first order. */
  lemma PagesStep(visible: seq<MessageRow>, k: nat)
    requires k >= 1
    ensures PagesNewestFirst(visible, k) ==
      PagesNewestFirst(visible, k - 1) + SortNewestFirst(visible)[PageStart(|visible|, k)..PageEnd(|visible|, k)]
  {
    PageIsSlice(visible, k);
  }

  /** If pages 1 to `k - 1` are a prefix of the newest-first order, pages 1 to `k` are a longer one. */
  lemma PagesExtend(visible: seq<MessageRow>, k: nat)
    requires k >= 1
    requires PagesNewestFirst(visible, k - 1) == SortNewestFirst(visible)[..PageStart(|visible|, k)]
    ensures PagesNewestFirst(visible, k) == SortNewestFirst(visible)[..PageEnd(|visible|, k)]
  {
    PagesStep(visible, k);
    PrefixThenSlice(SortNewestFirst(visible), PageStart(|visible|, k), PageEnd(|visible|, k));
  }

  /** Pages 1 to `k` are the first `50 * k` rows of one newest-first order of the history. */
  lemma {:induction false} PagesArePrefix(visible: seq<MessageRow>, k: nat)
    ensures k == 0 ==> PagesNewestFirst(visible, k) == []
    ensures k >= 1 ==> PagesNewestFirst(visible, k) == SortNewestFirst(visible)[..PageEnd(|visible|, k)]
  {
    if k >= 1 {
      PagesArePrefix(visible, k - 1);
      assert PageStart(|visible|, k) == if k == 1 then 0 else PageEnd(|visible|, k - 1);
      PagesExtend(visible, k);
    }
  }

  lemma PrefixThenSlice<T>(s: seq<T>, lo: int, hi: int)
    requires 0 <= lo <= hi <= |s|
    ensures s[..lo] + s[lo..hi] == s[..hi]
  {
  }

  /**
   * Paging through the whole history, `page=1` upwards, meets every visible
   * row exactly once, each page older than the one before: the pages split
   * one newest-first order of the history into runs of 50.
   */
  lemma HistoryPagesCoverAll(visible: seq<MessageRow>)
    ensures var all := PagesNewestFirst(visible, |visible| / PerPage + 1);
      NewestFirst(all) && multiset(all) == multiset(visible)
  {
    var sorted := SortNewestFirst(visible);
    var k := |visible| / PerPage + 1;
    PagesArePrefix(visible, k);
    assert PageEnd(|visible|, k) == |sorted|;
    assert sorted[..|sorted|] == sorted;
  }

  datatype PageResult =
    | Forbidden
    | Page(messages: seq<MessageRow>, hasMore: bool, page: int)

  /* ---------- the tables and the mutating handlers ---------- */

  datatype CreateResult =
    | BadRequest(error: string)
    | Existing(id: ConvId)
    | Created(id: ConvId)
    | IntegrityError

  datatype SendReply =
    | ErrorToSender(text: string)
    | BroadcastToRoom(room: ConvId, message: MessageDict)

  datatype TypingRelay = TypingRelay(room: ConvId, notice: TypingNotice, includeSelf: bool)

  predicate NoDup<T(==)>(s: seq<T>) {
    forall i, j :: 0 <= i < j < |s| ==> s[i] != s[j]
  }

  /** The listed ids other than the creator, in list order. */
  function Others(creator: UserId, ids: seq<UserId>): (r: seq<UserId>)
    ensures forall u :: u in r <==> u in ids && u != creator
  {
    if ids == [] then []
    else
      var last := ids[|ids| - 1];
      assert ids == ids[..|ids| - 1] + [last];
      Others(creator, ids[..|ids| - 1]) + (if last != creator then [last] else [])
  }

  /** Each listed id other than the creator is kept as often as it is listed; the creator never. */
  lemma {:induction false} OthersCount(creator: UserId, ids: seq<UserId>, u: UserId)
    ensures multiset(Others(creator, ids))[u] == if u == creator then 0 else multiset(ids)[u]
  {
    if ids != [] {
      var last := ids[|ids| - 1];
      assert ids == ids[..|ids| - 1] + [last];
      OthersCount(creator, ids[..|ids| - 1], u);
    }
  }

  function RowsOf(cid: ConvId, users: seq<UserId>): (r: seq<ParticipantRow>)
    ensures |r| == |users| && forall i :: 0 <= i < |users| ==> r[i] == ParticipantRow(cid, users[i])
  {
    seq(|users|, i requires 0 <= i < |users| => ParticipantRow(cid, users[i]))
  }

  /** The rows `create_conversation` adds: the creator once, then one per other listed id. */
  function NewParticipantRows(cid: ConvId, creator: UserId, ids: seq<UserId>): (r: seq<ParticipantRow>)
    ensures r != [] && r[0] == ParticipantRow(cid, creator)
    ensures forall p :: p in r ==> p.conversationId == cid
    ensures forall u :: ParticipantRow(cid, u) in r <==> u == creator || u in ids
  {
    [ParticipantRow(cid, creator)] + RowsOf(cid, Others(creator, ids))
  }

  /**
   * The users foreign key holds for the new rows exactly when the creator and
   * every listed id are users.
   */
  lemma KnownUsersIff(cid: ConvId, creator: UserId, ids: seq<UserId>, users: set<UserId>)
    ensures (forall p :: p in NewParticipantRows(cid, creator, ids) ==> p.userId in users)
      <==> creator in users && forall u :: u in ids ==> u in users
  {
    var rows := NewParticipantRows(cid, creator, ids);
    if forall p :: p in rows ==> p.userId in users {
      assert ParticipantRow(cid, creator) in rows;
      forall u | u in ids ensures u in users {
        assert ParticipantRow(cid, u) in rows;
      }
    } else {
      var p :| p in rows && p.userId !in users;
      assert p == ParticipantRow(cid, p.userId);
    }
  }

  lemma RowsOfUniqueIff(cid: ConvId, users: seq<UserId>)
    ensures UniquePairs(RowsOf(cid, users)) <==> NoDup(users)
  {
    var rows := RowsOf(cid, users);
    if !NoDup(users) {
      var i, j :| 0 <= i < j < |users| && users[i] == users[j];
      assert rows[i] == rows[j];
    }
  }

  lemma ConsUniqueIff<T>(x: T, s: seq<T>)
    ensures NoDup([x] + s) <==> x !in s && NoDup(s)
  {
    var t := [x] + s;
    if NoDup(t) {
      forall k | 0 <= k < |s| ensures s[k] != x { assert t[0] == x && t[k + 1] == s[k]; }
      forall i, j | 0 <= i < j < |s| ensures s[i] != s[j] { assert t[i + 1] == s[i] && t[j + 1] == s[j]; }
    }
  }

  /** The new rows satisfy the unique constraint exactly when no other id is listed twice. */
  lemma NewRowsUniqueIff(cid: ConvId, creator: UserId, ids: seq<UserId>)
    ensures UniquePairs(NewParticipantRows(cid, creator, ids)) <==> NoDup(Others(creator, ids))
  {
    var us := Others(creator, ids);
    var rows := RowsOf(cid, us);
    RowsOfUniqueIff(cid, us);
    ConsUniqueIff(ParticipantRow(cid, creator), rows);
    assert UniquePairs(NewParticipantRows(cid, creator, ids)) == NoDup([ParticipantRow(cid, creator)] + rows);
    assert UniquePairs(rows) == NoDup(rows);
    if ParticipantRow(cid, creator) in rows {
      var k :| 0 <= k < |rows| && rows[k] == ParticipantRow(cid, creator);
      assert us[k] in us;
    }
  }

  /** Two equal entries make an element's count at least two. */
  lemma DupCount<T>(s: seq<T>, i: int, j: int)
    requires 0 <= i < j < |s| && s[i] == s[j]
    ensures multiset(s)[s[i]] > 1
  {
    assert s == s[..j] + [s[j]] + s[j + 1..];
    assert s[i] in s[..j];
    assert multiset(s[..j])[s[i]] >= 1;
  }

  /** `create_conversation` fails the unique constraint iff some id other than the creator's repeats. */
  lemma DuplicateListedIdBreaksUniqueness(cid: ConvId, creator: UserId, ids: seq<UserId>)
    ensures !UniquePairs(NewParticipantRows(cid, creator, ids)) <==>
      exists u :: u != creator && multiset(ids)[u] > 1
  {
    NewRowsUniqueIff(cid, creator, ids);
    var us := Others(creator, ids);
    if !NoDup(us) {
      var i, j :| 0 <= i < j < |us| && us[i] == us[j];
      DupCount(us, i, j);
      OthersCount(creator, ids, us[i]);
      assert us[i] in us;
    } else {
      forall u | u != creator ensures multiset(ids)[u] <= 1 {
        OthersCount(creator, ids, u);
        NoDupCount(us, u);
      }
    }
  }

  lemma {:induction false} NoDupCount<T>(s: seq<T>, x: T)
    requires NoDup(s)
    ensures multiset(s)[x] <= 1
  {
    if s != [] {
      assert s == [s[0]] + s[1..];
      ConsUniqueIff(s[0], s[1..]);
      NoDupCount(s[1..], x);
    }
  }

  /** The row `handle_send_message` stores: the file fields from `file_data`, not edited, not deleted. */
  function SentRow(id: int, cid: ConvId, sender: UserId, text: string, messageType: string,
                   fileData: Option<FileData>, now: int): (row: MessageRow)
    ensures row.id == id && row.conversationId == cid && row.senderId == sender && row.content == text
    ensures row.messageType == messageType && row.createdAt == now && row.editedAt.None? && !row.isDeleted
    ensures row.fileUrl == (if fileData.Some? then Some(fileData.value.url) else None)
    ensures row.fileName == (if fileData.Some? then Some(fileData.value.name) else None)
    ensures row.fileSize == (if fileData.Some? then Some(fileData.value.size) else None)
  {
    MessageRow(id, cid, sender, text, messageType,
      if fileData.Some? then Some(fileData.value.url) else None,
      if fileData.Some? then Some(fileData.value.name) else None,
      if fileData.Some? then Some(fileData.value.size) else None,
      now, None, false)
  }

  class Store {
    var conversations: map<ConvId, ConversationRow>
    var participants: seq<ParticipantRow>
    var messages: seq<MessageRow>
    var nextConversationId: ConvId
    var nextMessageId: int
    /** The ids of the `users` table; registering accounts is not part of this model. */
    const users: set<UserId>

    /** The unique constraint, foreign keys into `conversations` and `users`, and fresh keys ahead. */
    ghost predicate Valid()
      reads this
    {
      && UniquePairs(participants)
      && (forall p :: p in participants ==> p.conversationId in conversations && p.userId in users)
      && (forall id :: id in conversations ==> conversations[id].id == id && id < nextConversationId)
      && (forall m :: m in messages ==> m.id < nextMessageId)
    }

    constructor (registered: set<UserId>)
      ensures Valid()
      ensures users == registered && conversations == map[] && participants == [] && messages == []
    {
      users := registered;
      conversations, participants, messages := map[], [], [];
      nextConversationId, nextMessageId := 1, 1;
    }

    /** The `filter_by(conversation_id, user_id).first()` lookup: some row links the user to the conversation. */
    function IsParticipant(cid: ConvId, uid: UserId): (b: bool)
      reads this
      ensures b <==> exists p :: p in participants && p.conversationId == cid && p.userId == uid
    {
      ParticipantRow(cid, uid) in participants
    }

    /**
     * `get_messages`: participants only; then page `page` of the
     * conversation's undeleted messages (see `HistoryPage`).
     */
    function GetMessages(cid: ConvId, viewer: UserId, page: int): (r: PageResult)
      reads this
      ensures r.Forbidden? <==> !IsParticipant(cid, viewer)
      ensures r.Page? ==> r.page == page && |r.messages| == PageLength(|Visible(messages, cid)|, page) && OldestFirst(r.messages)
      ensures r.Page? ==> r.messages == HistoryPage(Visible(messages, cid), page)
      ensures r.Page? ==> forall m :: m in r.messages ==> m in messages && m.conversationId == cid && !m.isDeleted
      ensures r.Page? ==> (r.hasMore <==> |Visible(messages, cid)| > EffectivePage(page) * PerPage)
    {
      if !IsParticipant(cid, viewer) then Forbidden
      else
        var visible := Visible(messages, cid);
        Page(HistoryPage(visible, page), EffectivePage(page) * PerPage < |visible|, page)
    }

    /**
     * The rows `create_conversation` adds to the session before its commit:
     * the creator, then each listed id other than the creator's, in order.
     */
    static method PendingParticipants(cid: ConvId, creator: UserId, ids: seq<UserId>) returns (pending: seq<ParticipantRow>)
      ensures pending == NewParticipantRows(cid, creator, ids)
    {
      pending := [ParticipantRow(cid, creator)];
      for i := 0 to |ids|
        invariant pending == [ParticipantRow(cid, creator)] + RowsOf(cid, Others(creator, ids[..i]))
      {
        var u := ids[i];
        assert ids[..i + 1] == ids[..i] + [u];
        assert ids[..i + 1][..i] == ids[..i];
        if u != creator {
          pending := pending + [ParticipantRow(cid, u)];
        }
      }
      assert ids[..|ids|] == ids;
    }

    /**
     * `create_conversation`. `existingDirect` is the result of the lookup for
     * an existing direct conversation with the single listed user.
     */
    method CreateConversation(creator: UserId, participantIds: seq<UserId>, isGroup: bool, name: string,
                              existingDirect: Option<ConvId>, now: int)
      returns (r: CreateResult)
      requires Valid()
      requires existingDirect.Some? ==> existingDirect.value in conversations
      modifies this
      ensures Valid()
      ensures r.BadRequest? <==> participantIds == []
      ensures participantIds == [] ==> r == BadRequest("At least one participant is required")
      ensures r.Existing? <==> participantIds != [] && !isGroup && |participantIds| == 1 && existingDirect.Some?
      ensures r.Existing? ==> r == Existing(existingDirect.value)
      ensures r.IntegrityError? <==> (participantIds != [] && !(!isGroup && |participantIds| == 1 && existingDirect.Some?)
        && ((exists u :: u != creator && multiset(participantIds)[u] > 1)
            || creator !in users || exists u :: u in participantIds && u !in users))
      ensures !r.Created? ==> unchanged(this)
      ensures r.Created? ==> (r.id == old(nextConversationId) && r.id !in old(conversations)
        && conversations == old(conversations)[r.id := ConversationRow(r.id, if isGroup then Some(name) else None, isGroup, now, now)]
        && participants == old(participants) + NewParticipantRows(r.id, creator, participantIds)
        && messages == old(messages) && nextMessageId == old(nextMessageId)
        && nextConversationId == old(nextConversationId) + 1)
    {
      if participantIds == [] {
        return BadRequest("At least one participant is required");
      }
      if !isGroup && |participantIds| == 1 && existingDirect.Some? {
        return Existing(existingDirect.value);
      }
      var cid := nextConversationId;
      var pending := PendingParticipants(cid, creator, participantIds);
      assert UniquePairs(participants + pending) <==> !exists u :: u != creator && multiset(participantIds)[u] > 1 by {
        DuplicateListedIdBreaksUniqueness(cid, creator, participantIds);
        FreshRowsUnique(cid, pending);
      }
      assert (forall p :: p in pending ==> p.userId in users) <==> creator in users && forall u :: u in participantIds ==> u in users by {
        KnownUsersIff(cid, creator, participantIds, users);
      }
      if !UniquePairs(participants + pending) || exists p :: p in pending && p.userId !in users {
        return IntegrityError;
      }
      conversations := conversations[cid := ConversationRow(cid, if isGroup then Some(name) else None, isGroup, now, now)];
      participants := participants + pending;
      nextConversationId := cid + 1;
      r := Created(cid);
    }

    /** Rows of a conversation not yet in the table clash with no existing row. */
    lemma FreshRowsUnique(cid: ConvId, rows: seq<ParticipantRow>)
      requires Valid() && cid !in conversations
      requires forall p :: p in rows ==> p.conversationId == cid
      ensures UniquePairs(participants + rows) <==> UniquePairs(rows)
    {
      var all := participants + rows;
      if UniquePairs(rows) {
        forall i, j | 0 <= i < j < |all| ensures all[i] != all[j] {
          if i < |participants| <= j {
            assert all[j] == rows[j - |participants|];
            assert all[i] in participants;
          } else if |participants| <= i {
            assert all[i] == rows[i - |participants|] && all[j] == rows[j - |participants|];
          }
        }
      } else {
        var i, j :| 0 <= i < j < |rows| && rows[i] == rows[j];
        assert all[|participants| + i] == all[|participants| + j];
      }
    }

    /**
     * `handle_send_message`: participants only, then a text message needs
     * content after stripping; otherwise one message row is stored, the
     * conversation's `updated_at` is bumped and the message is sent to its room.
     */
    method HandleSendMessage(sender: User, target: Option<ConvId>, content: string, messageType: string,
                             fileData: Option<FileData>, now: int)
      returns (reply: SendReply)
      requires Valid()
      modifies this
      ensures Valid()
      ensures (target.None? || !old(IsParticipant(target.value, sender.id))) ==>
        reply == ErrorToSender("Unauthorized")
      ensures target.Some? && old(IsParticipant(target.value, sender.id)) && AllSpace(content, Python) && messageType == TextType ==>
        reply == ErrorToSender("Message content is required")
      ensures reply.ErrorToSender? ==> unchanged(this)
      ensures reply.BroadcastToRoom? <==> (target.Some? && old(IsParticipant(target.value, sender.id))
        && !(AllSpace(content, Python) && messageType == TextType))
      ensures reply.BroadcastToRoom? ==>
        var row := SentRow(old(nextMessageId), target.value, sender.id, Strip(content), messageType, fileData, now);
        && messages == old(messages) + [row]
        && reply == BroadcastToRoom(target.value, MessageToDict(row, sender))
        && conversations == old(conversations)[target.value := old(conversations)[target.value].(updatedAt := now)]
        && participants == old(participants) && nextConversationId == old(nextConversationId)
        && nextMessageId == old(nextMessageId) + 1
    {
      if target.None? || !IsParticipant(target.value, sender.id) {
        return ErrorToSender("Unauthorized");
      }
      var cid := target.value;
      var text := Strip(content);
      if text == [] && messageType == TextType {
        return ErrorToSender("Message content is required");
      }
      var row := SentRow(nextMessageId, cid, sender.id, text, messageType, fileData, now);
      AppendMessage(row, now);
      reply := BroadcastToRoom(cid, MessageToDict(row, sender));
    }

    /** The commit of `handle_send_message`: the new row, and the conversation's `updated_at` bumped. */
    method AppendMessage(row: MessageRow, now: int)
      requires Valid() && row.id == nextMessageId && row.conversationId in conversations
      modifies this
      ensures Valid()
      ensures messages == old(messages) + [row] && nextMessageId == old(nextMessageId) + 1
      ensures conversations == old(conversations)[row.conversationId := old(conversations)[row.conversationId].(updatedAt := now)]
      ensures participants == old(participants) && nextConversationId == old(nextConversationId)
    {
      messages := messages + [row];
      conversations := conversations[row.conversationId := conversations[row.conversationId].(updatedAt := now)];
      nextMessageId := nextMessageId + 1;
    }

    /** `handle_typing`: only a participant's notice is relayed, to the room minus the sender. */
    function HandleTyping(sender: User, conversationId: JsId, isTyping: bool): (r: Option<TypingRelay>)
      reads this
      ensures r.Some? <==> IsParticipant(conversationId.key, sender.id)
      ensures r.Some? ==> (r.value.room == conversationId.key && !r.value.includeSelf
        && r.value.notice == TypingNotice(sender.id, sender.username, conversationId, isTyping))
    {
      var cid := conversationId.key;
      if IsParticipant(cid, sender.id) then
        Some(TypingRelay(cid, TypingNotice(sender.id, sender.username, conversationId, isTyping), false))
      else None
    }
  }
}
