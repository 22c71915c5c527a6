/**
 The prompt-history tape (desktop/app.go): the prompts of many saved sessions read as
 one sequence, a page at a time, with the sessions' files scanned lazily.
 */
module PromptHistory {
  import opened Wrappers

  datatype Entry = Entry(text: string, at: int)

  /** What scanning a session file comes to.  A file is scanned at most once per tape,
      so its one outcome can be fixed in advance. */
  datatype Scan = Missing | Failed | Scanned(entries: seq<Entry>)

  datatype Cursor = Cursor(nonce: string, session: int, offset: int)

  /** `older` is None exactly when the source reports HasOlder = false. */
  datatype Page = Page(entries: seq<Entry>, older: Option<Cursor>)

  const MAX_PAGE := 200

  function Min(a: nat, b: nat): nat
  {
    if a < b then a else b
  }

  function Clamp(n: int): nat
  {
    if n < 0 then 0 else n
  }

  function Content(disk: map<string, Scan>, path: string): seq<Entry>
  {
    if path in disk && disk[path].Scanned? then disk[path].entries else []
  }

  /** Everything from the given offset of the given session on; the whole tape is
      Rest(disk, sessions, 0, 0). */
  function Rest(disk: map<string, Scan>, sessions: seq<string>, session: nat, offset: nat): seq<Entry>
    decreases |sessions| - session
  {
    if session >= |sessions| then []
    else
      var entries := Content(disk, sessions[session]);
      (if offset < |entries| then entries[offset..] else []) + Rest(disk, sessions, session + 1, 0)
  }

  lemma SkipSession(disk: map<string, Scan>, sessions: seq<string>, session: nat, offset: nat)
    requires session < |sessions| && offset >= |Content(disk, sessions[session])|
    ensures Rest(disk, sessions, session, offset) == Rest(disk, sessions, session + 1, 0)
  {
  }

  lemma TakeSlice(disk: map<string, Scan>, sessions: seq<string>, session: nat, offset: nat, end: nat)
    requires session < |sessions| && offset <= end <= |Content(disk, sessions[session])|
    ensures Content(disk, sessions[session])[offset..end] + Rest(disk, sessions, session, end)
         == Rest(disk, sessions, session, offset)
  {
    var entries, later := Content(disk, sessions[session]), Rest(disk, sessions, session + 1, 0);
    assert entries[|entries|..] == [];
    assert entries[offset..] == entries[offset..end] + entries[end..];
    Append(entries[offset..end], entries[end..], later);
  }

  /** One page read off `rest`: a page with something older is full. */
  predicate ReadsOff(rest: seq<Entry>, limit: nat, page: Page, rest': seq<Entry>)
  {
    && page.entries + rest' == rest
    && |page.entries| <= limit
    && (page.older.Some? ==> |page.entries| == limit)
    && (page.older.None? ==> rest' == [])
  }

  class Tape {
    const nonce: string
    const sessions: seq<string>
    const disk: map<string, Scan>
    var loaded: map<string, seq<Entry>>
    var scans: multiset<string>

    constructor (nonce: string, sessions: seq<string>, disk: map<string, Scan>)
      ensures this.nonce == nonce && this.sessions == sessions && this.disk == disk && Valid()
    {
      this.nonce, this.sessions, this.disk := nonce, sessions, disk;
      loaded, scans := map[], multiset{};
    }

    /** The cache holds what each scan gave, and no file was scanned twice. */
    ghost predicate Valid()
      reads this
    {
      && (forall path :: path in loaded ==> loaded[path] == Content(disk, path))
      && (forall path :: scans[path] == if path in loaded then 1 else 0)
    }

    function At(cursor: Option<Cursor>): (nat, nat)
    {
      if cursor.Some? && cursor.value.nonce == nonce
      then (Clamp(cursor.value.session), Clamp(cursor.value.offset)) else (0, 0)
    }

    function RestAt(cursor: Option<Cursor>): seq<Entry>
    {
      Rest(disk, sessions, At(cursor).0, At(cursor).1)
    }

    /** Reading begins at the front without a cursor and with one of another tape, and
        otherwise where the cursor says, negative positions counting as none. */
    lemma WhereReadingBegins(cursor: Option<Cursor>)
      ensures cursor.None? || cursor.value.nonce != nonce ==> RestAt(cursor) == Rest(disk, sessions, 0, 0)
      ensures cursor.Some? && cursor.value.nonce == nonce ==>
                var c := cursor.value;
                RestAt(cursor) == Rest(disk, sessions, if c.session < 0 then 0 else c.session,
                                       if c.offset < 0 then 0 else c.offset)
    {
    }

    /** entriesForSession: a session that is missing or fails is cached as empty. */
    method EntriesForSession(index: nat) returns (entries: seq<Entry>, failed: bool)
      requires Valid() && index < |sessions|
      modifies this
      ensures Valid() && sessions[index] in loaded
      ensures if failed then Content(disk, sessions[index]) == [] else entries == Content(disk, sessions[index])
    {
      var path := sessions[index];
      if path in loaded {
        return loaded[path], false;
      }
      scans := scans + multiset{path};
      if path !in disk || disk[path].Missing? {
        loaded := loaded[path := []];
        return [], false;
      }
      if disk[path].Failed? {
        loaded := loaded[path := []];
        return [], true;
      }
      loaded := loaded[path := disk[path].entries];
      return disk[path].entries, false;
    }

    /** One turn of readOlder's loop: skip the session, or take what the page still
        has room for. */
    method Advance(session: nat, offset: nat, room: nat) returns (taken: seq<Entry>, session': nat, offset': nat)
      requires Valid() && session < |sessions| && room > 0
      modifies this
      ensures Valid()
      ensures taken + Rest(disk, sessions, session', offset') == Rest(disk, sessions, session, offset)
      ensures |taken| <= room && session <= session' <= |sessions|
      ensures |taken| == room || session' > session
    {
      var entries, failed := EntriesForSession(session);
      if failed || offset >= |entries| {
        SkipSession(disk, sessions, session, offset);
        return [], session + 1, 0;
      }
      var end := Min(|entries|, offset + room);
      TakeSlice(disk, sessions, session, offset, end);
      taken, session', offset' := entries[offset..end], session, end;
      if offset' >= |entries| && |taken| < room {
        SkipSession(disk, sessions, session, offset');
        session', offset' := session + 1, 0;
      }
    }

    /** The end of readOlder: a session known to be read to its end is left behind. */
    method PastRead(session: nat, offset: nat) returns (session': nat, offset': nat)
      requires Valid()
      ensures session <= session' <= session + 1
      ensures Rest(disk, sessions, session', offset') == Rest(disk, sessions, session, offset)
      ensures session' < |sessions| && sessions[session'] in loaded && session' == session ==>
                offset' == offset < |loaded[sessions[session]]|
    {
      session', offset' := session, offset;
      if session < |sessions| {
        var path := sessions[session];
        if path in loaded && offset >= |loaded[path]| {
          SkipSession(disk, sessions, session, offset);
          session', offset' := session + 1, 0;
        }
      }
    }

    /** readOlder: any cursor is accepted; one of another tape starts from the front. */
    method ReadOlder(cursor: Option<Cursor>, limit: nat) returns (page: Page)
      requires Valid()
      modifies this
      ensures Valid()
      ensures ReadsOff(RestAt(cursor), limit, page, if page.older.Some? then RestAt(page.older) else [])
    {
      var session: nat, offset: nat := At(cursor).0, At(cursor).1;
      var out: seq<Entry> := [];
      ghost var tape := RestAt(cursor);
      while session < |sessions| && |out| < limit
        invariant Valid() && |out| <= limit
        invariant tape == out + Rest(disk, sessions, session, offset)
        decreases |sessions| - session, limit - |out|
      {
        var taken, session', offset' := Advance(session, offset, limit - |out|);
        Append(out, taken, Rest(disk, sessions, session', offset'));
        out, session, offset := out + taken, session', offset';
      }
      session, offset := PastRead(session, offset);
      page := Page(out, if session < |sessions| then Some(Cursor(nonce, session, offset)) else None);
      if session >= |sessions| {
        Append(out, [], []);
      }
    }

    /** readAll terminates and returns the whole tape, each entry once and in order. */
    method ReadAll() returns (out: seq<Entry>)
      requires Valid()
      modifies this
      ensures Valid()
      ensures out == Rest(disk, sessions, 0, 0)
    {
      out := [];
      var cursor: Option<Cursor> := None;
      while true
        invariant Valid() && out + RestAt(cursor) == Rest(disk, sessions, 0, 0)
        decreases |RestAt(cursor)|
      {
        ghost var before, rest := out, RestAt(cursor);
        var page := ReadOlder(cursor, MAX_PAGE);
        out := out + page.entries;
        ghost var rest' := if page.older.Some? then RestAt(page.older) else [];
        Append(before, page.entries, rest');
        assert |rest| == |page.entries| + |rest'|;
        if page.older.None? {
          return;
        }
        cursor := page.older;
      }
    }

    /** What is still unread behind pages read from the front. */
    function Unread(pages: seq<Page>): seq<Entry>
    {
      if pages == [] then RestAt(None)
      else if pages[|pages| - 1].older.Some? then RestAt(pages[|pages| - 1].older)
      else []
    }

    /** A client that follows the cursors from the front with page sizes of its own, until
        a page reports nothing older or the sizes run out: the pages and what is unread
        are the tape, and with positive sizes no more pages than entries report something
        older, so one size more than entries reads it all. */
    method ReadPages(limits: seq<nat>) returns (pages: seq<Page>)
      requires Valid()
      modifies this
      ensures Valid()
      ensures Joined(pages) + Unread(pages) == Rest(disk, sessions, 0, 0)
      ensures Follow(limits, pages)
      ensures |pages| == |limits| || (pages != [] && pages[|pages| - 1].older.None?)
      ensures AllPositive(limits) ==> |pages| <= |Rest(disk, sessions, 0, 0)| + 1
      ensures AllPositive(limits) && Unfinished(pages) ==> |pages| <= |Rest(disk, sessions, 0, 0)|
      ensures AllPositive(limits) && |limits| > |Rest(disk, sessions, 0, 0)| ==>
                Joined(pages) == Rest(disk, sessions, 0, 0)
    {
      pages := [];
      var cursor: Option<Cursor> := None;
      ghost var rests := [RestAt(None)];
      while |pages| < |limits| && (pages == [] || cursor.Some?)
        invariant Valid() && |pages| <= |limits|
        invariant pages != [] ==> cursor == pages[|pages| - 1].older
        invariant pages == [] ==> cursor == None
        invariant |rests| == |pages| + 1 && rests[0] == RestAt(None) && rests[|pages|] == Unread(pages)
        invariant Follow(limits, pages) && Chain(rests, limits, pages)
        decreases |limits| - |pages|
      {
        var page := ReadOlder(cursor, limits[|pages|]);
        ghost var rest := if page.older.Some? then RestAt(page.older) else [];
        OneMorePage(rests, limits, pages, page, rest);
        pages, cursor, rests := pages + [page], page.older, rests + [rest];
      }
      ChainEnds(rests, limits, pages);
    }
  }

  lemma Append(out: seq<Entry>, entries: seq<Entry>, rest: seq<Entry>)
    ensures out + (entries + rest) == (out + entries) + rest
    ensures rest == [] ==> out + entries == out + (entries + rest)
    ensures |entries + rest| == |entries| + |rest|
  {
  }

  // ---- Following cursors with any page sizes ----

  function Joined(pages: seq<Page>): seq<Entry>
  {
    if pages == [] then [] else pages[0].entries + Joined(pages[1..])
  }

  /** The whole tape is the concatenation of its sessions. */
  function Concatenated(disk: map<string, Scan>, sessions: seq<string>): seq<Entry>
  {
    if sessions == [] then [] else Content(disk, sessions[0]) + Concatenated(disk, sessions[1..])
  }

  lemma {:induction false} RestIsConcatenated(disk: map<string, Scan>, sessions: seq<string>, session: nat)
    requires session <= |sessions|
    ensures Rest(disk, sessions, session, 0) == Concatenated(disk, sessions[session..])
    decreases |sessions| - session
  {
    if session < |sessions| {
      RestIsConcatenated(disk, sessions, session + 1);
      assert sessions[session..][1..] == sessions[session + 1..];
      assert Content(disk, sessions[session])[0..] == Content(disk, sessions[session]);
    }
  }

  predicate AllPositive(limits: seq<nat>)
  {
    forall i :: 0 <= i < |limits| ==> limits[i] > 0
  }

  predicate Unfinished(pages: seq<Page>)
  {
    forall i :: 0 <= i < |pages| ==> pages[i].older.Some?
  }

  /** Each page was asked for because the one before it reported something older, and holds
      at most its size, or exactly that if something is older still. */
  predicate Follow(limits: seq<nat>, pages: seq<Page>)
  {
    && |pages| <= |limits|
    && (forall i :: 0 <= i < |pages| - 1 ==> pages[i].older.Some?)
    && (forall i :: 0 <= i < |pages| ==> |pages[i].entries| <= limits[i])
    && forall i :: 0 <= i < |pages| && pages[i].older.Some? ==> |pages[i].entries| == limits[i]
  }

  /** The pages are read off the given remainders, one after the other. */
  ghost predicate Chain(rests: seq<seq<Entry>>, limits: seq<nat>, pages: seq<Page>)
  {
    && |pages| <= |limits| && |rests| == |pages| + 1
    && forall i :: 0 <= i < |pages| ==> ReadsOff(rests[i], limits[i], pages[i], rests[i + 1])
  }

  /** Pages read one after the other with any page sizes: joined with what is still
      unread they are the tape, so once a page reports nothing older they are all of
      it; and with positive sizes every page before the last brings something. */
  lemma {:induction false} PagesAreTheTape(rests: seq<seq<Entry>>, limits: seq<nat>, pages: seq<Page>)
    requires |limits| == |pages| && Chain(rests, limits, pages)
    ensures Joined(pages) + rests[|pages|] == rests[0]
    ensures pages != [] && pages[|pages| - 1].older.None? ==> Joined(pages) == rests[0]
    ensures AllPositive(limits) && Unfinished(pages) ==> |pages| <= |rests[0]|
    decreases |pages|
  {
    if pages != [] {
      PagesAreTheTape(rests[1..], limits[1..], pages[1..]);
      if |pages| > 1 {
        assert pages[1..][|pages| - 2] == pages[|pages| - 1];
      }
    }
  }

  lemma OneMorePage(rests: seq<seq<Entry>>, limits: seq<nat>, pages: seq<Page>, page: Page, rest: seq<Entry>)
    requires Chain(rests, limits, pages) && Follow(limits, pages) && |pages| < |limits|
    requires pages != [] ==> pages[|pages| - 1].older.Some?
    requires ReadsOff(rests[|pages|], limits[|pages|], page, rest)
    ensures Chain(rests + [rest], limits, pages + [page]) && Follow(limits, pages + [page])
  {
  }

  /** Where following the cursors ends. */
  lemma ChainEnds(rests: seq<seq<Entry>>, limits: seq<nat>, pages: seq<Page>)
    requires Chain(rests, limits, pages) && Follow(limits, pages)
    requires |pages| == |limits| || (pages != [] && pages[|pages| - 1].older.None?)
    ensures Joined(pages) + rests[|pages|] == rests[0]
    ensures AllPositive(limits) ==> |pages| <= |rests[0]| + 1
    ensures AllPositive(limits) && Unfinished(pages) ==> |pages| <= |rests[0]|
    ensures AllPositive(limits) && |limits| > |rests[0]| ==> Joined(pages) == rests[0]
  {
    PagesAreTheTape(rests, limits[..|pages|], pages);
    if pages != [] {
      PagesAreTheTape(rests[..|pages|], limits[..|pages| - 1], pages[..|pages| - 1]);
    }
  }
}
