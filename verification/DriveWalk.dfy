/** The bounded recursive folder walk of composio_google_drive_connector.py. */
module DriveWalk {
  import opened Common

  type Id = Option<string>

  datatype Entry = File(name: string) | Folder(id: Id)

  /** A page, an error message, or an exception. */
  datatype Response = Page(files: seq<Entry>, next: Option<string>) | Error | Exception

  /** One call of `list_drive_files`, the `call`-th: answers may depend on all of it, and on time. */
  datatype Request = Request(folder: Id, token: Option<string>, size: int, call: nat)

  type Drive = imap<Request, Response>

  function Answer(drive: Drive, r: Request): Response {
    if r in drive then drive[r] else Error
  }

  /** An absent or empty token ends the listing. */
  predicate More(next: Option<string>) {
    next.Some? && next.value != ""
  }

  /** A position in the listing of a folder. */
  datatype Place = Place(folder: Id, token: Option<string>)

  ghost function RankOf(rank: imap<Place, nat>, folder: Id, token: Option<string>): nat {
    if Place(folder, token) in rank then rank[Place(folder, token)] else 0
  }

  /** Token chains are finite: every next token is lower. */
  ghost predicate FiniteChains(drive: Drive, rank: imap<Place, nat>) {
    forall r :: Descends(drive, rank, r)
  }

  ghost predicate Descends(drive: Drive, rank: imap<Place, nat>, r: Request) {
    Answer(drive, r).Page? && More(Answer(drive, r).next) ==>
      RankOf(rank, r.folder, Answer(drive, r).next) < RankOf(rank, r.folder, r.token)
  }

  ghost function ContentOf(content: imap<Place, seq<Entry>>, folder: Id, token: Option<string>): seq<Entry> {
    if Place(folder, token) in content then content[Place(folder, token)] else []
  }

  /**
    The drive pages through `content` consistently, whatever the page sizes and the time; a place that
    always fails has no readable content.
   */
  ghost predicate Consistent(drive: Drive, content: imap<Place, seq<Entry>>) {
    forall r :: Serves(drive, content, r)
  }

  ghost predicate Serves(drive: Drive, content: imap<Place, seq<Entry>>, r: Request) {
    match Answer(drive, r)
    case Page(files, next) =>
      ContentOf(content, r.folder, r.token) == Ahead(content, r.folder, files, next)
    case Error => ContentOf(content, r.folder, r.token) == []
    case Exception => ContentOf(content, r.folder, r.token) == []
  }

  /** The files below `entries`, depth first, descending `d` more levels into subfolders. */
  ghost function Walk(content: imap<Place, seq<Entry>>, entries: seq<Entry>, d: nat): seq<Entry>
    decreases d, |entries|
  {
    if entries == [] then []
    else
      (match entries[0]
       case File(_) => [entries[0]]
       case Folder(id) => if d == 0 then [] else Walk(content, ContentOf(content, id, None), d - 1))
      + Walk(content, entries[1..], d)
  }

  lemma TakeAbsorbs(a: seq<Entry>, w: seq<Entry>, rest: seq<Entry>, n: nat)
    requires |a| <= n
    ensures Take(a + (w + rest), n) == Take((a + Take(w, n - |a|)) + rest, n)
  {
  }

  ghost function Rest(content: imap<Place, seq<Entry>>, folder: Id, next: Option<string>): seq<Entry> {
    if More(next) then ContentOf(content, folder, next) else []
  }

  /** What is still to come of a folder: the rest of its page, then the pages after it. */
  ghost function Ahead(content: imap<Place, seq<Entry>>, folder: Id, page: seq<Entry>,
                       next: Option<string>): seq<Entry> {
    page + Rest(content, folder, next)
  }

  /** Files fetched so far plus what is ahead is still the depth-first listing, up to the limit. */
  ghost predicate OnTrack(content: imap<Place, seq<Entry>>, d: nat, n: nat, all: seq<Entry>, ahead: seq<Entry>,
                          goal: seq<Entry>) {
    Take(all + Walk(content, ahead, d), n) == goal
  }

  /** Once the limit is reached it does not matter what is ahead. */
  lemma FullIsDone(content: imap<Place, seq<Entry>>, d: nat, n: nat, all: seq<Entry>, ahead: seq<Entry>,
                   goal: seq<Entry>, other: seq<Entry>)
    requires OnTrack(content, d, n, all, ahead, goal) && |all| == n
    ensures goal == all && OnTrack(content, d, n, all, other, goal)
  {
  }

  lemma FileStaysOnTrack(content: imap<Place, seq<Entry>>, d: nat, n: nat, all: seq<Entry>, ahead: seq<Entry>,
                         goal: seq<Entry>)
    requires OnTrack(content, d, n, all, ahead, goal) && ahead != [] && ahead[0].File?
    ensures OnTrack(content, d, n, all + [ahead[0]], ahead[1..], goal)
  {
    assert all + ([ahead[0]] + Walk(content, ahead[1..], d)) == (all + [ahead[0]]) + Walk(content, ahead[1..], d);
  }

  lemma FolderStaysOnTrack(content: imap<Place, seq<Entry>>, d: nat, n: nat, all: seq<Entry>, ahead: seq<Entry>,
                           goal: seq<Entry>, sub: seq<Entry>)
    requires OnTrack(content, d, n, all, ahead, goal) && ahead != [] && ahead[0].Folder? && |all| <= n
    requires sub == if d == 0 then [] else Take(Walk(content, ContentOf(content, ahead[0].id, None), d - 1), n - |all|)
    ensures OnTrack(content, d, n, all + sub, ahead[1..], goal)
  {
    var w := if d == 0 then [] else Walk(content, ContentOf(content, ahead[0].id, None), d - 1);
    TakeAbsorbs(all, w, Walk(content, ahead[1..], d), n);
  }

  /** `[]` when too deep or already full, else the listing up to the limit. */
  ghost function Expected(content: imap<Place, seq<Entry>>, folder: Id, maxFiles: int, currentCount: int, depth: int,
                          maxDepth: int): seq<Entry> {
    if depth >= maxDepth || currentCount >= maxFiles then []
    else Take(Walk(content, ContentOf(content, folder, None), maxDepth - depth - 1), maxFiles - currentCount)
  }

  /** What one answer tells: the chain descends, and the content of the place is what it serves. */
  lemma AnswerTells(drive: Drive, rank: imap<Place, nat>, content: imap<Place, seq<Entry>>, r: Request)
    requires FiniteChains(drive, rank)
    ensures Descends(drive, rank, r)
    ensures Consistent(drive, content) && Answer(drive, r).Page? ==>
      ContentOf(content, r.folder, r.token) == Ahead(content, r.folder, Answer(drive, r).files, Answer(drive, r).next)
    ensures Consistent(drive, content) && !Answer(drive, r).Page? ==> ContentOf(content, r.folder, r.token) == []
  {
    assert Consistent(drive, content) ==> Serves(drive, content, r);
  }

  lemma DoneAtEnd(content: imap<Place, seq<Entry>>, d: nat, n: nat, all: seq<Entry>, goal: seq<Entry>)
    requires OnTrack(content, d, n, all, [], goal) && |all| <= n
    ensures all == goal
  {
    assert all + [] == all;
  }

  /** The drive answered a request for `folder` with this page; a request asks for 1 to 100 entries. */
  ghost predicate Answered(drive: Drive, folder: Id, page: seq<Entry>) {
    exists r: Request, next: Option<string> ::
      r.folder == folder && 1 <= r.size <= 100 && Answer(drive, r) == Page(page, next)
  }

  /** `f` was on a page answered for `folder`, or for a folder found at most `d` levels below it. */
  ghost predicate FoundIn(drive: Drive, folder: Id, f: Entry, d: nat)
    decreases d
  {
    exists page :: Answered(drive, folder, page) &&
      (f in page || (d > 0 && exists id :: Folder(id) in page && FoundIn(drive, id, f, d - 1)))
  }

  /** Everything returned is a file found within the depth. */
  ghost predicate AllFound(drive: Drive, folder: Id, d: nat, all: seq<Entry>) {
    forall k :: 0 <= k < |all| ==> all[k].File? && FoundIn(drive, folder, all[k], d)
  }

  lemma FileIsFound(drive: Drive, folder: Id, page: seq<Entry>, d: nat, all: seq<Entry>, f: Entry)
    requires AllFound(drive, folder, d, all) && Answered(drive, folder, page) && f in page && f.File?
    ensures AllFound(drive, folder, d, all + [f])
  {
    assert FoundIn(drive, folder, f, d);
  }

  lemma SubfolderIsFound(drive: Drive, folder: Id, page: seq<Entry>, d: nat, all: seq<Entry>, id: Id, sub: seq<Entry>)
    requires AllFound(drive, folder, d, all) && Answered(drive, folder, page) && Folder(id) in page
    requires if d == 0 then sub == [] else AllFound(drive, id, d - 1, sub)
    ensures AllFound(drive, folder, d, all + sub)
  {
    forall k | 0 <= k < |sub|
      ensures sub[k].File? && FoundIn(drive, folder, sub[k], d)
    {
    }
  }

  /** One entry of a page: a file is kept, a folder is descended into. */
  method TakeEntry(drive: Drive, folder: Id, page: seq<Entry>, entry: Entry, have: seq<Entry>, maxFiles: int,
                   currentCount: int, depth: int, maxDepth: int, calls: nat, ghost rank: imap<Place, nat>,
                   ghost content: imap<Place, seq<Entry>>, ghost ahead: seq<Entry>, ghost goal: seq<Entry>)
    returns (all: seq<Entry>, calls': nat)
    requires FiniteChains(drive, rank) && depth < maxDepth && |have| + currentCount < maxFiles
    requires Answered(drive, folder, page) && entry in page && AllFound(drive, folder, maxDepth - depth - 1, have)
    requires ahead != [] && ahead[0] == entry
    requires Consistent(drive, content) ==>
      OnTrack(content, maxDepth - depth - 1, maxFiles - currentCount, have, ahead, goal)
    ensures |all| <= maxFiles - currentCount && AllFound(drive, folder, maxDepth - depth - 1, all)
    ensures Consistent(drive, content) ==>
      OnTrack(content, maxDepth - depth - 1, maxFiles - currentCount, all, ahead[1..], goal)
    decreases maxDepth - depth, 0
  {
    ghost var d: nat, n: nat := maxDepth - depth - 1, maxFiles - currentCount;
    match entry
    case Folder(id) =>
      var sub;
      sub, calls' := FetchFolderFilesRecursively(drive, id, maxFiles, currentCount + |have|, depth + 1, maxDepth, calls,
                                                 rank, content);
      SubfolderIsFound(drive, folder, page, d, have, id, sub);
      all := have + sub;
      if Consistent(drive, content) {
        FolderStaysOnTrack(content, d, n, have, ahead, goal, sub);
      }
    case File(_) =>
      FileIsFound(drive, folder, page, d, have, entry);
      all, calls' := have + [entry], calls;
      if Consistent(drive, content) {
        FileStaysOnTrack(content, d, n, have, ahead, goal);
      }
  }

  /** The loop over one page; `all` are the files of the folder so far. */
  method TakePage(drive: Drive, folder: Id, page: seq<Entry>, next: Option<string>, have: seq<Entry>, maxFiles: int,
                  currentCount: int, depth: int, maxDepth: int, calls: nat, ghost rank: imap<Place, nat>,
                  ghost content: imap<Place, seq<Entry>>, ghost goal: seq<Entry>)
    returns (all: seq<Entry>, calls': nat)
    requires FiniteChains(drive, rank) && depth < maxDepth && |have| + currentCount < maxFiles
    requires Answered(drive, folder, page) && AllFound(drive, folder, maxDepth - depth - 1, have)
    requires Consistent(drive, content) ==> OnTrack(content, maxDepth - depth - 1, maxFiles - currentCount, have,
                                                    Ahead(content, folder, page, next), goal)
    ensures |all| <= maxFiles - currentCount && AllFound(drive, folder, maxDepth - depth - 1, all)
    ensures Consistent(drive, content) ==> OnTrack(content, maxDepth - depth - 1, maxFiles - currentCount, all,
                                                   Rest(content, folder, next), goal)
    decreases maxDepth - depth, 1
  {
    ghost var d: nat, n: nat := maxDepth - depth - 1, maxFiles - currentCount;
    ghost var consistent := Consistent(drive, content);
    all, calls' := have, calls;
    for i := 0 to |page|
      invariant |all| < n && AllFound(drive, folder, d, all)
      invariant consistent ==> OnTrack(content, d, n, all, Ahead(content, folder, page[i..], next), goal)
    {
      ghost var ahead := Ahead(content, folder, page[i..], next);
      assert ahead[0] == page[i] && ahead[1..] == Ahead(content, folder, page[i + 1..], next);
      all, calls' := TakeEntry(drive, folder, page, page[i], all, maxFiles, currentCount, depth, maxDepth, calls', rank,
                               content, ahead, goal);
      if |all| + currentCount >= maxFiles {
        if consistent {
          FullIsDone(content, d, n, all, ahead[1..], goal, Rest(content, folder, next));
        }
        return;
      }
    }
    assert Ahead(content, folder, page[|page|..], next) == Rest(content, folder, next);
  }

  /** One round of the page loop; no next page after an error or an exception. */
  method FetchPage(drive: Drive, folder: Id, token: Option<string>, have: seq<Entry>, maxFiles: int, currentCount: int,
                   depth: int, maxDepth: int, calls: nat, ghost rank: imap<Place, nat>,
                   ghost content: imap<Place, seq<Entry>>, ghost goal: seq<Entry>)
    returns (all: seq<Entry>, next: Option<string>, calls': nat)
    requires FiniteChains(drive, rank) && depth < maxDepth && |have| + currentCount < maxFiles
    requires AllFound(drive, folder, maxDepth - depth - 1, have)
    requires Consistent(drive, content) ==>
      OnTrack(content, maxDepth - depth - 1, maxFiles - currentCount, have, ContentOf(content, folder, token), goal)
    ensures |all| <= maxFiles - currentCount && AllFound(drive, folder, maxDepth - depth - 1, all)
    ensures More(next) ==> RankOf(rank, folder, next) < RankOf(rank, folder, token)
    ensures Consistent(drive, content) ==>
      OnTrack(content, maxDepth - depth - 1, maxFiles - currentCount, all, Rest(content, folder, next), goal)
    decreases maxDepth - depth, 2
  {
    var left := maxFiles - |have| - currentCount;
    var request := Request(folder, token, if left < 100 then left else 100, calls);
    var response := Answer(drive, request);
    calls' := calls + 1;
    AnswerTells(drive, rank, content, request);
    if !response.Page? {
      return have, None, calls';
    }
    next := response.next;
    assert Answered(drive, folder, response.files);
    all, calls' := TakePage(drive, folder, response.files, next, have, maxFiles, currentCount, depth, maxDepth, calls',
                            rank, content, goal);
  }

  /**
    Fetch the files below a folder. Whatever the drive answers, the limit holds, and everything
    returned is a file from a page answered for a folder within the depth; a consistent drive,
    cyclic or not, yields the depth-first listing up to the limit.
   */
  method FetchFolderFilesRecursively(drive: Drive, folder: Id, maxFiles: int, currentCount: int, depth: int,
                                     maxDepth: int, calls: nat, ghost rank: imap<Place, nat>,
                                     ghost content: imap<Place, seq<Entry>>)
    returns (all: seq<Entry>, calls': nat)
    requires FiniteChains(drive, rank)
    ensures |all| <= if currentCount < maxFiles then maxFiles - currentCount else 0
    ensures if depth < maxDepth then AllFound(drive, folder, maxDepth - depth - 1, all) else all == []
    ensures Consistent(drive, content) ==> all == Expected(content, folder, maxFiles, currentCount, depth, maxDepth)
    decreases maxDepth - depth, 3
  {
    all, calls' := [], calls;
    if depth >= maxDepth || currentCount >= maxFiles {
      return;
    }
    ghost var d: nat, n: nat := maxDepth - depth - 1, maxFiles - currentCount;
    ghost var goal := Take(Walk(content, ContentOf(content, folder, None), d), n);
    var token: Option<string> := None;
    ghost var consistent := Consistent(drive, content);
    while |all| + currentCount < maxFiles
      invariant |all| <= n && AllFound(drive, folder, d, all)
      invariant consistent ==> OnTrack(content, d, n, all, ContentOf(content, folder, token), goal)
      decreases RankOf(rank, folder, token)
    {
      var next;
      all, next, calls' := FetchPage(drive, folder, token, all, maxFiles, currentCount, depth, maxDepth, calls', rank,
                                     content, goal);
      if !More(next) {
        if consistent {
          DoneAtEnd(content, d, n, all, goal);
        }
        return;
      }
      token := next;
    }
    if consistent {
      FullIsDone(content, d, n, all, ContentOf(content, folder, token), goal, []);
    }
    all := Prefix(all, maxFiles - currentCount);
  }

  // ---------- what the listing is ----------

  /** What is ahead after a page: nothing without a next token or with an empty one, else the rest of the folder. */
  lemma AheadMeans(content: imap<Place, seq<Entry>>, folder: Id, page: seq<Entry>, t: string)
    ensures Ahead(content, folder, page, None) == page
    ensures Ahead(content, folder, page, Some(t)) == page + if t == "" then [] else ContentOf(content, folder, Some(t))
  {
  }

  /** A folder as the drive pages through it: the first page, and the later ones with their tokens. */
  datatype Listing = Listing(first: seq<Entry>, more: seq<(string, seq<Entry>)>)

  predicate ProperTokens(l: Listing) {
    && (forall i :: 0 <= i < |l.more| ==> l.more[i].0 != "")
    && (forall i, j :: 0 <= i < j < |l.more| ==> l.more[i].0 != l.more[j].0)
  }

  function TokenAt(l: Listing, i: nat): Option<string>
    requires i <= |l.more|
  {
    if i == 0 then None else Some(l.more[i - 1].0)
  }

  function FilesAt(l: Listing, i: nat): seq<Entry>
    requires i <= |l.more|
  {
    if i == 0 then l.first else l.more[i - 1].1
  }

  /** Page `i`, with the token of the next page if there is one. */
  function PageAt(l: Listing, i: nat): Response
    requires i <= |l.more|
  {
    Page(FilesAt(l, i), if i < |l.more| then TokenAt(l, i + 1) else None)
  }

  /** The entries of page `i` and all later ones. */
  function FilesFrom(l: Listing, i: nat): seq<Entry>
    requires i <= |l.more|
    decreases |l.more| - i
  {
    FilesAt(l, i) + if i < |l.more| then FilesFrom(l, i + 1) else []
  }

  /** The drive lists this folder so. */
  ghost predicate Lists(drive: Drive, folder: Id, l: Listing) {
    forall r: Request, i: nat :: r.folder == folder && i <= |l.more| && r.token == TokenAt(l, i) ==>
      Answer(drive, r) == PageAt(l, i)
  }

  /** What a consistent drive has in a folder is all its pages, one after the other. */
  lemma {:induction false} ContentIsAllPages(drive: Drive, content: imap<Place, seq<Entry>>, folder: Id, l: Listing,
                                             i: nat)
    requires Consistent(drive, content) && Lists(drive, folder, l) && ProperTokens(l) && i <= |l.more|
    ensures ContentOf(content, folder, TokenAt(l, i)) == FilesFrom(l, i)
    decreases |l.more| - i
  {
    var r := Request(folder, TokenAt(l, i), 1, 0);
    assert Answer(drive, r) == PageAt(l, i);
    assert Serves(drive, content, r);
    if i < |l.more| {
      ContentIsAllPages(drive, content, folder, l, i + 1);
      AheadMeans(content, folder, FilesAt(l, i), l.more[i].0);
    }
  }

  function FindToken(more: seq<(string, seq<Entry>)>, t: string): (r: Option<nat>)
    ensures r.Some? ==> r.value < |more| && more[r.value].0 == t
    ensures r.None? ==> forall i :: 0 <= i < |more| ==> more[i].0 != t
  {
    if more == [] then None
    else if more[|more| - 1].0 == t then Some(|more| - 1)
    else FindToken(more[..|more| - 1], t)
  }

  /** The page a token stands for. */
  function PageOf(l: Listing, token: Option<string>): Option<nat> {
    match token
    case None => Some(0)
    case Some(t) => if FindToken(l.more, t).Some? then Some(FindToken(l.more, t).value + 1) else None
  }

  /** The drive answers every request from these listings, with an error for what they do not have. */
  ghost predicate Pages(drive: Drive, listings: imap<Id, Listing>) {
    && (forall id :: id in listings ==> ProperTokens(listings[id]))
    && (forall r: Request :: Answer(drive, r) == AnswerFrom(listings, r.folder, r.token))
  }

  function AnswerFrom(listings: imap<Id, Listing>, folder: Id, token: Option<string>): Response {
    if folder in listings && PageOf(listings[folder], token).Some? then
      PageAt(listings[folder], PageOf(listings[folder], token).value)
    else Error
  }

  ghost function ContentFrom(listings: imap<Id, Listing>, p: Place): seq<Entry> {
    if p.folder in listings && PageOf(listings[p.folder], p.token).Some? then
      FilesFrom(listings[p.folder], PageOf(listings[p.folder], p.token).value)
    else []
  }

  ghost function RankFrom(listings: imap<Id, Listing>, p: Place): nat {
    if p.folder in listings && PageOf(listings[p.folder], p.token).Some? then
      |listings[p.folder].more| - PageOf(listings[p.folder], p.token).value
    else 0
  }

  lemma NextPage(l: Listing, i: nat)
    requires ProperTokens(l) && i < |l.more|
    ensures PageOf(l, TokenAt(l, i + 1)) == Some(i + 1) && More(TokenAt(l, i + 1))
  {
  }

  /**
    The walk's assumptions are met by every drive that pages through listings, however its folders are
    nested: token chains are finite, and the content of a folder is the concatenation of its pages.
   */
  lemma PagedDriveIsConsistent(drive: Drive, listings: imap<Id, Listing>)
    returns (rank: imap<Place, nat>, content: imap<Place, seq<Entry>>)
    requires Pages(drive, listings)
    ensures FiniteChains(drive, rank) && Consistent(drive, content)
    ensures forall id :: id in listings ==> ContentOf(content, id, None) == FilesFrom(listings[id], 0)
  {
    rank := imap p: Place :: RankFrom(listings, p);
    content := imap p: Place :: ContentFrom(listings, p);
    forall r: Request
      ensures Descends(drive, rank, r) && Serves(drive, content, r)
    {
      assert Answer(drive, r) == AnswerFrom(listings, r.folder, r.token);
      if Answer(drive, r).Page? {
        var l := listings[r.folder];
        var i := PageOf(l, r.token).value;
        if i < |l.more| {
          NextPage(l, i);
        }
      }
    }
  }

  /** The depth-first listing, entry by entry: files as they come, folders replaced by what is below them. */
  lemma {:induction false} WalkMeans(content: imap<Place, seq<Entry>>, a: seq<Entry>, b: seq<Entry>, id: Id,
                                     name: string, d: nat)
    ensures Walk(content, [], d) == [] && Walk(content, a + b, d) == Walk(content, a, d) + Walk(content, b, d)
    ensures Walk(content, [File(name)], d) == [File(name)]
    ensures Walk(content, [Folder(id)], 0) == []
    ensures Walk(content, [Folder(id)], d + 1) == Walk(content, ContentOf(content, id, None), d)
    decreases |a|
  {
    if a == [] {
      assert a + b == b;
    } else {
      assert (a + b)[1..] == a[1..] + b;
      WalkMeans(content, a[1..], b, id, name, d);
    }
  }

  /** With depth one only the folder's own files are listed, with depth two those of its subfolders too. */
  lemma DepthIsCounted(content: imap<Place, seq<Entry>>, folder: Id, sub: Id, file: string, maxFiles: int)
    requires maxFiles >= 2 && ContentOf(content, folder, None) == [Folder(sub), File(file)]
    requires ContentOf(content, sub, None) == [File("below")]
    ensures Expected(content, folder, maxFiles, 0, 0, 0) == []
    ensures Expected(content, folder, maxFiles, 0, 0, 1) == [File(file)]
    ensures Expected(content, folder, maxFiles, 0, 0, 2) == [File("below"), File(file)]
    ensures Expected(content, folder, maxFiles, maxFiles - 1, 0, 2) == [File("below")]
  {
    var entries := ContentOf(content, folder, None);
    assert entries == [Folder(sub)] + [File(file)];
    WalkMeans(content, [Folder(sub)], [File(file)], sub, file, 0);
    WalkMeans(content, [Folder(sub)], [File(file)], sub, file, 1);
    WalkMeans(content, [], [], sub, "below", 0);
  }
}
