/**
 * The passage sampler of the frontend's Bible mode: the selected book, a cache of the book
 * list, and a queue of shuffled passages served one at a time.
 *
 * Randomness is an input. `draw` is the stream of draws the chunking loop consumes, each the
 * value of `Math.floor(Math.random() * 12)`; `pick` is the `Math.random()` value that chooses a
 * book, and `shuffle` a function that returns a permutation of its argument. The outcomes of
 * `cachedFetchJson` for the book list and for each book file are inputs as well.
 */
module BibleController {
  import opened Wrappers
  import opened Text
  import opened Seqs
  import JsonData

  datatype Testament = OT | NT

  datatype Book = Book(id: int, name: string, testament: Testament)

  datatype Verse = Verse(v: int, t: string)

  /** One entry of a book file's `chapters` record, in the order `Object.keys` lists them. */
  datatype Chapter = Chapter(key: string, verses: seq<Verse>)

  datatype BookData = BookData(name: string, chapters: seq<Chapter>)

  /** Inclusive character-length ranges of the short, medium and long groups. */
  const LengthGroups: seq<(int, int)> := [(0, 100), (101, 300), (301, 600)]

  const BooksUrl: string := "bible/books.json"

  function BookUrl(slug: string): string {
    "bible/" + slug + ".json"
  }

  // ---------------------------------------------------------------- book names

  /** `toLowerCase` on ASCII letters. */
  function LowerChar(c: char): char {
    if 'A' <= c <= 'Z' then (c as int + 32) as char else c
  }

  function SlugChar(c: char): char {
    if c == ' ' then '-' else LowerChar(c)
  }

  /** `name.toLowerCase().replace(/ /g, "-")`: the key a book is selected and fetched by. */
  function Slug(name: string): (s: string)
    ensures |s| == |name|
    ensures forall i :: 0 <= i < |s| ==> s[i] != ' ' && !('A' <= s[i] <= 'Z')
    ensures forall i :: 0 <= i < |s| && name[i] != ' ' && !('A' <= name[i] <= 'Z') ==> s[i] == name[i]
    ensures forall i :: 0 <= i < |s| && name[i] == ' ' ==> s[i] == '-'
    ensures forall i :: 0 <= i < |s| && 'A' <= name[i] <= 'Z' ==> s[i] as int == name[i] as int + 32
  {
    seq(|name|, i requires 0 <= i < |name| => SlugChar(name[i]))
  }

  /** `books.find(b => slug(b.name) === slug)`. */
  function FindBySlug(books: seq<Book>, slug: string): (r: Option<Book>)
    ensures r.Some? ==> exists i :: (0 <= i < |books| && books[i] == r.value &&
      Slug(books[i].name) == slug && forall j :: 0 <= j < i ==> Slug(books[j].name) != slug)
    ensures r.None? ==> forall i :: 0 <= i < |books| ==> Slug(books[i].name) != slug
    decreases |books|
  {
    if books == [] then None
    else if Slug(books[0].name) == slug then Some(books[0])
    else
      var r := FindBySlug(books[1..], slug);
      if r.Some? then
        ghost var i :| 0 <= i < |books[1..]| && books[1..][i] == r.value &&
          Slug(books[1..][i].name) == slug && forall j :: 0 <= j < i ==> Slug(books[1..][j].name) != slug;
        assert books[i + 1] == r.value;
        assert forall j :: 1 <= j < i + 1 ==> books[j] == books[1..][j - 1];
        r
      else r
  }

  /**
   * `getSelectedBookDisplayName()`: "All Books" for "all"; the raw slug while the book list
   * is not loaded; otherwise the name of the first book whose slug is the selection, or the
   * raw slug when none is.
   */
  function DisplayName(selected: string, booksCache: Option<seq<Book>>): (r: string)
    ensures selected == "all" ==> r == "All Books"
    ensures selected != "all" && booksCache.None? ==> r == selected
    ensures (selected != "all" && booksCache.Some? &&
             forall i :: 0 <= i < |booksCache.value| ==> Slug(booksCache.value[i].name) != selected) ==>
      r == selected
    ensures (selected != "all" && booksCache.Some? &&
             exists i :: 0 <= i < |booksCache.value| && Slug(booksCache.value[i].name) == selected) ==>
      exists i :: 0 <= i < |booksCache.value| && r == booksCache.value[i].name &&
        Slug(booksCache.value[i].name) == selected &&
        forall j :: 0 <= j < i ==> Slug(booksCache.value[j].name) != selected
  {
    if selected == "all" then "All Books"
    else if booksCache.None? then selected
    else
      match FindBySlug(booksCache.value, selected)
      case Some(book) => book.name
      case None => selected
  }

  // ---------------------------------------------------------------- passages

  function VerseTexts(verses: seq<Verse>): (ts: seq<string>)
    ensures |ts| == |verses| && forall i :: 0 <= i < |verses| ==> ts[i] == verses[i].t
  {
    seq(|verses|, i requires 0 <= i < |verses| => verses[i].t)
  }

  /** `buildQuoteText`: the verse texts joined by single spaces. */
  function BuildQuoteText(verses: seq<Verse>): (r: string)
    ensures verses == [] ==> r == ""
  {
    if verses == [] then "" else Join(VerseTexts(verses), " ")
  }

  /** A single verse is quoted as it is; otherwise the quote holds every verse text plus one space between each two. */
  lemma BuildQuoteTextLength(verses: seq<Verse>)
    ensures |verses| == 1 ==> BuildQuoteText(verses) == verses[0].t
    ensures verses != [] ==> |BuildQuoteText(verses)| == SumLengths(VerseTexts(verses)) + |verses| - 1
  {
    if verses != [] {
      JoinLength(VerseTexts(verses), " ");
    }
  }

  /** The values `Math.floor(Math.random() * 12)` takes: `Math.random()` lies in [0, 1). */
  ghost predicate ValidDraws(draw: nat -> int) {
    forall k :: 0 <= draw(k) < 12
  }

  /** `1 + Math.floor(Math.random() * 12)`, given the floored draw `d`. */
  function ChunkSize(d: int): (n: int)
    requires 0 <= d < 12
    ensures 1 <= n <= 12
  {
    1 + d
  }

  /**
   * The chunks the inner loop of `generateAllPassages` cuts from `verses` starting at verse `i`,
   * using the draws from index `k` on: each chunk is the next `ChunkSize(draw)` verses, or what
   * is left (`verses.slice(i, i + chunkSize)`).
   */
  function Chunks(verses: seq<Verse>, i: nat, draw: nat -> int, k: nat): seq<seq<Verse>>
    requires ValidDraws(draw)
    decreases |verses| - i
  {
    if i >= |verses| then []
    else
      var n := ChunkSize(draw(k));
      var end := if i + n <= |verses| then i + n else |verses|;
      [verses[i..end]] + Chunks(verses, i + n, draw, k + 1)
  }

  /** The draw index after cutting the chunks of `verses` from verse `i` on, starting at draw `k`. */
  function NextDraw(verses: seq<Verse>, i: nat, draw: nat -> int, k: nat): nat
    requires ValidDraws(draw)
    decreases |verses| - i
  {
    if i >= |verses| then k else NextDraw(verses, i + ChunkSize(draw(k)), draw, k + 1)
  }

  /** One draw is consumed per chunk. */
  lemma {:induction false} NextDrawCountsChunks(verses: seq<Verse>, i: nat, draw: nat -> int, k: nat)
    requires ValidDraws(draw)
    ensures NextDraw(verses, i, draw, k) == k + |Chunks(verses, i, draw, k)|
    decreases |verses| - i
  {
    if i < |verses| {
      NextDrawCountsChunks(verses, i + ChunkSize(draw(k)), draw, k + 1);
    }
  }

  function Concat<T>(chunks: seq<seq<T>>): seq<T>
    decreases |chunks|
  {
    if chunks == [] then [] else chunks[0] + Concat(chunks[1..])
  }

  /** The chunks of a chapter are consecutive, do not overlap and cover every verse from `i` on, in order. */
  lemma {:induction false} ChunksCover(verses: seq<Verse>, i: nat, draw: nat -> int, k: nat)
    requires ValidDraws(draw) && i <= |verses|
    ensures Concat(Chunks(verses, i, draw, k)) == verses[i..]
    decreases |verses| - i
  {
    if i < |verses| {
      var n := ChunkSize(draw(k));
      var end := if i + n <= |verses| then i + n else |verses|;
      var cs := Chunks(verses, i, draw, k);
      if i + n <= |verses| {
        ChunksCover(verses, i + n, draw, k + 1);
      } else {
        assert Chunks(verses, i + n, draw, k + 1) == [];
      }
      assert cs[1..] == Chunks(verses, i + n, draw, k + 1);
      assert verses[i..] == verses[i..end] + verses[end..];
    }
  }

  /**
   * Each chunk holds between 1 and 12 verses: exactly its drawn size, except that the last
   * chunk of a chapter may hold fewer.
   */
  lemma {:induction false} ChunkSizes(verses: seq<Verse>, i: nat, draw: nat -> int, k: nat)
    requires ValidDraws(draw)
    ensures forall j :: 0 <= j < |Chunks(verses, i, draw, k)| ==>
      1 <= |Chunks(verses, i, draw, k)[j]| <= ChunkSize(draw(k + j)) <= 12
    ensures forall j :: 0 <= j < |Chunks(verses, i, draw, k)| - 1 ==>
      |Chunks(verses, i, draw, k)[j]| == ChunkSize(draw(k + j))
    decreases |verses| - i
  {
    if i < |verses| {
      var n := ChunkSize(draw(k));
      var rest := Chunks(verses, i + n, draw, k + 1);
      ChunkSizes(verses, i + n, draw, k + 1);
      var cs := Chunks(verses, i, draw, k);
      assert rest == [] <==> i + n >= |verses|;
      forall j | 1 <= j < |cs|
        ensures 1 <= |cs[j]| <= ChunkSize(draw(k + j)) <= 12
        ensures j < |cs| - 1 ==> |cs[j]| == ChunkSize(draw(k + j))
      {
        assert cs[j] == rest[j - 1];
        assert k + 1 + (j - 1) == k + j;
      }
    }
  }

  /**
   * The chunks of a whole book from chapter `j` on: each chapter in turn, the draws continuing
   * across chapters.
   */
  function BookChunks(chapters: seq<Chapter>, j: nat, draw: nat -> int, k: nat): seq<seq<Verse>>
    requires ValidDraws(draw)
    decreases |chapters| - j
  {
    if j >= |chapters| then []
    else
      Chunks(chapters[j].verses, 0, draw, k) +
      BookChunks(chapters, j + 1, draw, NextDraw(chapters[j].verses, 0, draw, k))
  }

  predicate KeepPassage(text: string) {
    |text| > 10
  }

  /** The texts of `chunks` (each chunk's verse texts joined by spaces) that are long enough, in order. */
  function Kept(chunks: seq<seq<Verse>>): seq<string>
    decreases |chunks|
  {
    if chunks == [] then []
    else
      var text := BuildQuoteText(chunks[0]);
      (if KeepPassage(text) then [text] else []) + Kept(chunks[1..])
  }

  /** What `generateAllPassages(data)` returns for the draws `draw`. */
  ghost function Passages(data: BookData, draw: nat -> int): seq<string>
    requires ValidDraws(draw)
  {
    Kept(BookChunks(data.chapters, 0, draw, 0))
  }

  /** A text is kept exactly when it is long enough and is the text of one of the chunks. */
  lemma {:induction false} KeptMembers(chunks: seq<seq<Verse>>, p: string)
    ensures p in Kept(chunks) <==> KeepPassage(p) && exists c :: c in chunks && p == BuildQuoteText(c)
    decreases |chunks|
  {
    if chunks != [] {
      var head, tail := chunks[0], chunks[1..];
      KeptMembers(tail, p);
      assert chunks == [head] + tail;
      if p in Kept(chunks) && p !in Kept(tail) {
        assert head in chunks;
      }
      if p in Kept(tail) {
        var c :| c in tail && p == BuildQuoteText(c);
        assert c in chunks;
      }
      if KeepPassage(p) && exists c :: c in chunks && p == BuildQuoteText(c) {
        var c :| c in chunks && p == BuildQuoteText(c);
        if c != head {
          assert c in tail;
        }
      }
    }
  }

  /**
   * Every passage is the space-joined text of one chunk longer than 10 characters, and every
   * chunk whose text is longer than 10 characters is among the passages.
   */
  lemma PassagesAreLongChunkTexts(data: BookData, draw: nat -> int)
    requires ValidDraws(draw)
    ensures forall i :: 0 <= i < |Passages(data, draw)| ==>
      |Passages(data, draw)[i]| > 10 &&
      exists c :: c in BookChunks(data.chapters, 0, draw, 0) && Passages(data, draw)[i] == BuildQuoteText(c)
    ensures forall c :: c in BookChunks(data.chapters, 0, draw, 0) && |BuildQuoteText(c)| > 10 ==>
      BuildQuoteText(c) in Passages(data, draw)
  {
    var chunks := BookChunks(data.chapters, 0, draw, 0);
    var ps := Passages(data, draw);
    forall i | 0 <= i < |ps|
      ensures |ps[i]| > 10 && exists c :: c in chunks && ps[i] == BuildQuoteText(c)
    {
      KeptMembers(chunks, ps[i]);
    }
    forall c | c in chunks && |BuildQuoteText(c)| > 10
      ensures BuildQuoteText(c) in ps
    {
      KeptMembers(chunks, BuildQuoteText(c));
    }
  }

  /** Splitting the chunks splits the passages kept from them. */
  lemma {:induction false} KeptAppend(a: seq<seq<Verse>>, b: seq<seq<Verse>>)
    ensures Kept(a + b) == Kept(a) + Kept(b)
    decreases |a|
  {
    if a == [] {
      assert a + b == b;
    } else {
      var text := BuildQuoteText(a[0]);
      var head := if KeepPassage(text) then [text] else [];
      KeptAppend(a[1..], b);
      assert (a + b)[0] == a[0] && (a + b)[1..] == a[1..] + b;
      assert Kept(a + b) == head + Kept(a[1..] + b);
      assert Kept(a) == head + Kept(a[1..]);
      AppendAssoc(head, Kept(a[1..]), Kept(b));
    }
  }

  /** A single chunk yields its text when that is long enough, and nothing otherwise. */
  lemma KeptOne(chunk: seq<Verse>)
    ensures Kept([chunk]) == if KeepPassage(BuildQuoteText(chunk)) then [BuildQuoteText(chunk)] else []
  {
    var text := BuildQuoteText(chunk);
    assert [chunk][1..] == [];
    assert (if KeepPassage(text) then [text] else []) + [] == if KeepPassage(text) then [text] else [];
  }

  /** The first chunk cut at verse `i`, then the chunks from verse `next` on with the next draw. */
  lemma ChunksUnfold(verses: seq<Verse>, i: nat, end: nat, next: nat, draw: nat -> int, k: nat)
    requires ValidDraws(draw) && i < |verses|
    requires next == i + ChunkSize(draw(k)) && end == if next <= |verses| then next else |verses|
    ensures Chunks(verses, i, draw, k) == [verses[i..end]] + Chunks(verses, next, draw, k + 1)
    ensures NextDraw(verses, i, draw, k) == NextDraw(verses, next, draw, k + 1)
  {
  }

  /**
   * One turn of the inner loop: the next chunk's text is appended when it is long enough, and
   * what the later chunks keep completes the same passages.
   */
  lemma KeptCons(texts: seq<string>, target: seq<string>, chunk: seq<Verse>, rest: seq<seq<Verse>>)
    requires texts + Kept([chunk] + rest) == target
    ensures KeepPassage(BuildQuoteText(chunk)) ==> (texts + [BuildQuoteText(chunk)]) + Kept(rest) == target
    ensures !KeepPassage(BuildQuoteText(chunk)) ==> texts + Kept(rest) == target
  {
    KeptAppend([chunk], rest);
    KeptOne(chunk);
    var text := BuildQuoteText(chunk);
    if KeepPassage(text) {
      assert Kept([chunk] + rest) == [text] + Kept(rest);
      AppendAssoc(texts, [text], Kept(rest));
    } else {
      assert Kept([chunk] + rest) == [] + Kept(rest) == Kept(rest);
    }
  }

  /**
   * The inner loop of `generateAllPassages` over one chapter's verses: starting at draw `k0`, it
   * cuts the chapter's chunks, appends the long enough texts to `texts0`, and returns the next draw.
   */
  method CutChapter(verses: seq<Verse>, draw: nat -> int, k0: nat, texts0: seq<string>)
    returns (texts: seq<string>, k: nat)
    requires ValidDraws(draw)
    ensures k == NextDraw(verses, 0, draw, k0)
    ensures texts == texts0 + Kept(Chunks(verses, 0, draw, k0))
  {
    texts, k := texts0, k0;
    ghost var target := texts0 + Kept(Chunks(verses, 0, draw, k0));
    ghost var last := NextDraw(verses, 0, draw, k0);
    var i: nat := 0;
    while i < |verses|
      invariant texts + Kept(Chunks(verses, i, draw, k)) == target
      invariant NextDraw(verses, i, draw, k) == last
    {
      var chunkSize := ChunkSize(draw(k));
      var next := i + chunkSize;
      var end := if next <= |verses| then next else |verses|;
      var text := BuildQuoteText(verses[i..end]);
      ChunksUnfold(verses, i, end, next, draw, k);
      KeptCons(texts, target, verses[i..end], Chunks(verses, next, draw, k + 1));
      i := next;
      k := k + 1;
      if |text| > 10 {
        texts := texts + [text];
      }
    }
    assert texts + [] == texts;
  }

  /** One turn of the outer loop: a chapter's kept passages, then those of the later chapters. */
  lemma BookStep(texts: seq<string>, target: seq<string>, chapters: seq<Chapter>, j: nat,
                 draw: nat -> int, k: nat)
    requires ValidDraws(draw) && j < |chapters|
    requires texts + Kept(BookChunks(chapters, j, draw, k)) == target
    ensures (texts + Kept(Chunks(chapters[j].verses, 0, draw, k))) +
      Kept(BookChunks(chapters, j + 1, draw, NextDraw(chapters[j].verses, 0, draw, k))) == target
  {
    var cs := Chunks(chapters[j].verses, 0, draw, k);
    var rest := BookChunks(chapters, j + 1, draw, NextDraw(chapters[j].verses, 0, draw, k));
    KeptAppend(cs, rest);
    AppendAssoc(texts, Kept(cs), Kept(rest));
  }

  /**
   * `generateAllPassages(data)`: for each chapter, cut chunks of 1 to 12 verses with a fresh
   * draw per chunk, join each chunk's texts, and keep the texts longer than 10 characters.
   */
  method GenerateAllPassages(data: BookData, draw: nat -> int) returns (texts: seq<string>)
    requires ValidDraws(draw)
    ensures texts == Passages(data, draw)
  {
    texts := [];
    var k: nat := 0;
    var j: nat := 0;
    assert [] + Passages(data, draw) == Passages(data, draw);
    while j < |data.chapters|
      invariant texts + Kept(BookChunks(data.chapters, j, draw, k)) == Passages(data, draw)
    {
      BookStep(texts, Passages(data, draw), data.chapters, j, draw, k);
      texts, k := CutChapter(data.chapters[j].verses, draw, k, texts);
      j := j + 1;
    }
    assert texts + [] == texts;
  }

  // ---------------------------------------------------------------- length filter

  /** `ql` names one of the three groups and `len` lies in its inclusive range. */
  predicate InGroup(len: int, ql: int) {
    0 <= ql < |LengthGroups| && LengthGroups[ql].0 <= len <= LengthGroups[ql].1
  }

  predicate MatchesAny(len: int, quoteLengths: seq<int>) {
    exists i :: 0 <= i < |quoteLengths| && InGroup(len, quoteLengths[i])
  }

  /**
   * `filterByQuoteLength`: no requested group means no restriction; otherwise the passages
   * whose length lies in some requested group, in their original order.
   */
  function FilterByQuoteLength(passages: seq<string>, quoteLengths: seq<int>): seq<string> {
    if quoteLengths == [] then passages
    else Filter(passages, (text: string) => MatchesAny(|text|, quoteLengths))
  }

  /**
   * With no group requested every passage is kept; otherwise the kept passages are, in their
   * original order, exactly those whose length lies in a requested group.
   */
  lemma FilterByQuoteLengthSpec(passages: seq<string>, quoteLengths: seq<int>)
    ensures quoteLengths == [] ==> FilterByQuoteLength(passages, quoteLengths) == passages
    ensures IsSubsequence(FilterByQuoteLength(passages, quoteLengths), passages)
    ensures quoteLengths != [] ==> forall i :: 0 <= i < |FilterByQuoteLength(passages, quoteLengths)| ==>
      MatchesAny(|FilterByQuoteLength(passages, quoteLengths)[i]|, quoteLengths)
    ensures forall p :: p in FilterByQuoteLength(passages, quoteLengths) <==>
      p in passages && (quoteLengths == [] || MatchesAny(|p|, quoteLengths))
  {
    if quoteLengths == [] {
      IdentityIsSubsequence(passages);
    } else {
      var keep := (text: string) => MatchesAny(|text|, quoteLengths);
      FilterIsSubsequence(passages, keep);
      var r := FilterByQuoteLength(passages, quoteLengths);
      forall p
        ensures p in r <==> p in passages && MatchesAny(|p|, quoteLengths)
      {
        FilterMember(passages, keep, p);
      }
      forall i | 0 <= i < |r|
        ensures MatchesAny(|r[i]|, quoteLengths)
      {
        FilterMember(passages, keep, r[i]);
      }
    }
  }

  lemma {:induction false} IdentityIsSubsequence<T>(s: seq<T>)
    ensures IsSubsequence(s, s)
    decreases |s|
  {
    if s != [] {
      IdentityIsSubsequence(s[..|s| - 1]);
    }
  }

  /** Each passage is kept as often as it occurs when its length is in a requested group, else dropped. */
  lemma FilterByQuoteLengthCounts(passages: seq<string>, quoteLengths: seq<int>, p: string)
    requires quoteLengths != []
    ensures multiset(FilterByQuoteLength(passages, quoteLengths))[p] ==
      if MatchesAny(|p|, quoteLengths) then multiset(passages)[p] else 0
  {
    FilterMultiset(passages, (text: string) => MatchesAny(|text|, quoteLengths), p);
  }

  /** Requests that name no existing group select nothing. */
  lemma {:induction false} UnknownGroupsMatchNothing(passages: seq<string>, quoteLengths: seq<int>)
    requires quoteLengths != []
    requires forall i :: 0 <= i < |quoteLengths| ==> quoteLengths[i] < 0 || quoteLengths[i] >= 3
    ensures FilterByQuoteLength(passages, quoteLengths) == []
  {
    FilterByQuoteLengthSpec(passages, quoteLengths);
    var r := FilterByQuoteLength(passages, quoteLengths);
    if r != [] {
      assert false;
    }
  }

  /** 100 characters is short, 101 medium, 600 long, and 601 is in no group. */
  lemma GroupBoundaries(p: string, quoteLengths: seq<int>)
    ensures |p| == 100 && 0 in quoteLengths ==> FilterByQuoteLength([p], quoteLengths) == [p]
    ensures |p| == 100 && quoteLengths == [1] ==> FilterByQuoteLength([p], quoteLengths) == []
    ensures |p| == 101 && 1 in quoteLengths ==> FilterByQuoteLength([p], quoteLengths) == [p]
    ensures |p| == 101 && quoteLengths == [0] ==> FilterByQuoteLength([p], quoteLengths) == []
    ensures |p| == 600 && 2 in quoteLengths ==> FilterByQuoteLength([p], quoteLengths) == [p]
    ensures |p| == 601 && quoteLengths != [] ==> FilterByQuoteLength([p], quoteLengths) == []
  {
    FilterByQuoteLengthSpec([p], quoteLengths);
    var r := FilterByQuoteLength([p], quoteLengths);
    if quoteLengths != [] && (r != [] || MatchesAny(|p|, quoteLengths)) {
      assert [p][0] == p;
      FilterByQuoteLengthCounts([p], quoteLengths, p);
      assert multiset([p])[p] == 1;
    }
    if |p| == 100 && 0 in quoteLengths {
      var i :| 0 <= i < |quoteLengths| && quoteLengths[i] == 0;
      assert InGroup(|p|, quoteLengths[i]);
    } else if |p| == 101 && 1 in quoteLengths {
      var i :| 0 <= i < |quoteLengths| && quoteLengths[i] == 1;
      assert InGroup(|p|, quoteLengths[i]);
    } else if |p| == 600 && 2 in quoteLengths {
      var i :| 0 <= i < |quoteLengths| && quoteLengths[i] == 2;
      assert InGroup(|p|, quoteLengths[i]);
    }
  }

  /**
   * `loadPassages` after the fetch: the filtered passages when there are any, else all of
   * them, so the result is empty only when the book yields no passage at all.
   */
  function LoadedPassages(all: seq<string>, quoteLengths: seq<int>): seq<string> {
    var filtered := FilterByQuoteLength(all, quoteLengths);
    if |filtered| > 0 then filtered else all
  }

  /**
   * The loaded passages keep the book's order, are empty only when the book yields no passage,
   * match the requested groups whenever some passage does, and are all passages otherwise.
   */
  lemma LoadedPassagesSpec(all: seq<string>, quoteLengths: seq<int>)
    ensures IsSubsequence(LoadedPassages(all, quoteLengths), all)
    ensures all != [] ==> LoadedPassages(all, quoteLengths) != []
    ensures (exists i :: 0 <= i < |all| && MatchesAny(|all[i]|, quoteLengths)) && quoteLengths != [] ==>
      LoadedPassages(all, quoteLengths) == FilterByQuoteLength(all, quoteLengths) &&
      forall i :: 0 <= i < |LoadedPassages(all, quoteLengths)| ==>
        MatchesAny(|LoadedPassages(all, quoteLengths)[i]|, quoteLengths)
    ensures (forall i :: 0 <= i < |all| ==> !MatchesAny(|all[i]|, quoteLengths)) ==>
      LoadedPassages(all, quoteLengths) == all
  {
    FilterByQuoteLengthSpec(all, quoteLengths);
    var filtered := FilterByQuoteLength(all, quoteLengths);
    IdentityIsSubsequence(all);
    if filtered != [] {
      assert filtered[0] in all;
    }
  }

  datatype PassageError = FetchFailed(error: JsonData.FetchError) | NoBooks

  /** What `loadPassages` resolves to for the outcome of fetching the book file. */
  ghost function LoadOutcome(fetched: Result<BookData, JsonData.FetchError>, draw: nat -> int,
                             quoteLengths: seq<int>): Result<seq<string>, PassageError>
    requires ValidDraws(draw)
  {
    match fetched
    case Err(e) => Err(FetchFailed(e))
    case Ok(data) => Ok(LoadedPassages(Passages(data, draw), quoteLengths))
  }

  /** `loadPassages(slug, quoteLengths)` given what `cachedFetchJson` returned for the book file. */
  method LoadPassages(fetched: Result<BookData, JsonData.FetchError>, draw: nat -> int,
                      quoteLengths: seq<int>)
    returns (r: Result<seq<string>, PassageError>)
    requires ValidDraws(draw)
    ensures fetched.Err? ==> r == Err(FetchFailed(fetched.error))
    ensures fetched.Ok? ==> r == Ok(LoadedPassages(Passages(fetched.value, draw), quoteLengths))
    ensures r == LoadOutcome(fetched, draw, quoteLengths)
  {
    if fetched.Err? {
      return Err(FetchFailed(fetched.error));
    }
    var all := GenerateAllPassages(fetched.value, draw);
    r := Ok(LoadedPassages(all, quoteLengths));
  }

  // ---------------------------------------------------------------- sampler state

  /** `Math.floor(Math.random() * n)`. */
  function PickIndex(r: real, n: nat): (i: nat)
    requires 0.0 <= r < 1.0 && n > 0
    ensures i < n
  {
    var x := r * (n as real);
    assert 0.0 <= x < n as real by {
      assert (n as real) - x == (n as real) * (1.0 - r);
    }
    x.Floor
  }

  /** A chunk size drawn from any value of `Math.random()` lies in [1, 12]. */
  lemma ChunkSizeOfRandom(r: real)
    requires 0.0 <= r < 1.0
    ensures 0 <= PickIndex(r, 12) < 12
    ensures 1 <= ChunkSize(PickIndex(r, 12)) <= 12
  {
  }

  /** `shuffle` returns a permutation of what it is given. */
  ghost predicate IsShuffle(shuffle: seq<string> -> seq<string>) {
    forall s :: multiset(shuffle(s)) == multiset(s)
  }

  /** The book list `getBooks` yields given the cache and the fetch outcome. */
  function BooksAfter(booksCache: Option<seq<Book>>, books: Result<seq<Book>, JsonData.FetchError>)
    : Result<seq<Book>, JsonData.FetchError>
  {
    if booksCache.Some? then Ok(booksCache.value) else books
  }

  /** The slug a regeneration loads: the selection, or for "all" one randomly picked book. */
  function TargetSlug(selected: string, booksCache: Option<seq<Book>>,
                      books: Result<seq<Book>, JsonData.FetchError>, pick: real)
    : Result<string, PassageError>
    requires 0.0 <= pick < 1.0
  {
    if selected != "all" then Ok(selected)
    else match BooksAfter(booksCache, books)
      case Err(e) => Err(FetchFailed(e))
      case Ok(bs) =>
        if bs == [] then Err(NoBooks)   // `books[0]` is undefined and `.name` throws
        else Ok(Slug(bs[PickIndex(pick, |bs|)].name))
  }

  /** The book-list request a regeneration makes: only for "all" while the list is not cached. */
  function ListRequests(selected: string, booksCache: Option<seq<Book>>): seq<string> {
    if selected == "all" && booksCache.None? then [BooksUrl] else []
  }

  /** The book-file request a regeneration makes once it has a slug. */
  function BookRequests(slug: Result<string, PassageError>): seq<string> {
    if slug.Ok? then [BookUrl(slug.value)] else []
  }

  /** The passages a regeneration loads, before shuffling. */
  ghost function Regenerated(selected: string, booksCache: Option<seq<Book>>,
                             books: Result<seq<Book>, JsonData.FetchError>,
                             fetchBook: string -> Result<BookData, JsonData.FetchError>,
                             pick: real, draw: nat -> int, quoteLengths: seq<int>)
    : Result<seq<string>, PassageError>
    requires 0.0 <= pick < 1.0 && ValidDraws(draw)
  {
    match TargetSlug(selected, booksCache, books, pick)
    case Err(e) => Err(e)
    case Ok(slug) => LoadOutcome(fetchBook(BookUrl(slug)), draw, quoteLengths)
  }

  /** The module-level state of the controller. */
  class Controller {
    var selectedBook: string
    var storedBook: Option<string>       // the "bibleBook" entry of local storage
    var booksCache: Option<seq<Book>>
    var queue: seq<string>
    var queueIndex: nat
    ghost var requested: seq<string>     // URLs passed to `cachedFetchJson`, in order

    /** The cursor stays within the queue, except after serving `undefined` from an empty one. */
    ghost predicate Valid()
      reads this
    {
      (queue != [] ==> queueIndex <= |queue|) && (queue == [] ==> queueIndex <= 1)
    }

    /** The queue has nothing left to serve, so the next request regenerates it. */
    predicate Exhausted()
      reads this
    {
      |queue| == 0 || queueIndex >= |queue|
    }

    /** Module load: the stored selection, or "all" when storage has none. */
    constructor (stored: Option<string>)
      ensures Valid() && Exhausted()
      ensures selectedBook == stored.GetOr("all") && storedBook == stored
      ensures booksCache.None? && queue == [] && queueIndex == 0 && requested == []
    {
      selectedBook := stored.GetOr("all");
      storedBook := stored;
      booksCache := None;
      queue := [];
      queueIndex := 0;
      requested := [];
    }

    function GetSelectedBook(): string
      reads this
    {
      selectedBook
    }

    function GetSelectedBookDisplayName(): string
      reads this
    {
      DisplayName(selectedBook, booksCache)
    }

    /** `setSelectedBook(slug)`: remember and persist the slug, and clear the queue. */
    method SetSelectedBook(slug: string)
      modifies this
      ensures Valid() && Exhausted()
      ensures GetSelectedBook() == slug && storedBook == Some(slug)
      ensures queue == [] && queueIndex == 0
      ensures booksCache == old(booksCache) && requested == old(requested)
    {
      selectedBook := slug;
      storedBook := Some(slug);
      queue := [];
      queueIndex := 0;
    }

    /** The config-event subscription: a "quoteLength" change clears the queue, nothing else does. */
    method OnConfigEvent(key: string)
      requires Valid()
      modifies this
      ensures Valid()
      ensures key == "quoteLength" ==> queue == [] && queueIndex == 0 && Exhausted()
      ensures key != "quoteLength" ==> queue == old(queue) && queueIndex == old(queueIndex)
      ensures selectedBook == old(selectedBook) && storedBook == old(storedBook)
      ensures booksCache == old(booksCache) && requested == old(requested)
    {
      if key == "quoteLength" {
        queue := [];
        queueIndex := 0;
      }
    }

    /**
     * `getBooks()`: the cached list when there is one, with no request; otherwise a request
     * whose successful result becomes the cache.
     */
    method GetBooks(books: Result<seq<Book>, JsonData.FetchError>)
      returns (r: Result<seq<Book>, JsonData.FetchError>)
      modifies this
      ensures r == BooksAfter(old(booksCache), books)
      ensures old(booksCache).Some? ==> booksCache == old(booksCache) && requested == old(requested)
      ensures old(booksCache).None? ==> requested == old(requested) + [BooksUrl]
      ensures old(booksCache).None? ==> booksCache == if books.Ok? then Some(books.value) else None
      ensures selectedBook == old(selectedBook) && storedBook == old(storedBook)
      ensures queue == old(queue) && queueIndex == old(queueIndex)
    {
      if booksCache.Some? {
        return Ok(booksCache.value);
      }
      requested := requested + [BooksUrl];
      if books.Err? {
        return books;
      }
      booksCache := Some(books.value);
      r := Ok(booksCache.value);
    }

    /**
     * The book a regeneration loads: the selected slug, or for "all" the slug of the book at a
     * random index of the list `getBooks` yields.
     */
    method ChooseSlug(books: Result<seq<Book>, JsonData.FetchError>, pick: real)
      returns (r: Result<string, PassageError>)
      requires 0.0 <= pick < 1.0
      modifies this
      ensures r == TargetSlug(old(selectedBook), old(booksCache), books, pick)
      ensures selectedBook == "all" && old(booksCache).None? ==>
        booksCache == (if books.Ok? then Some(books.value) else None) &&
        requested == old(requested) + [BooksUrl]
      ensures !(selectedBook == "all" && old(booksCache).None?) ==>
        booksCache == old(booksCache) && requested == old(requested)
      ensures selectedBook == old(selectedBook) && storedBook == old(storedBook)
      ensures queue == old(queue) && queueIndex == old(queueIndex)
    {
      if selectedBook != "all" {
        return Ok(selectedBook);
      }
      var bs := GetBooks(books);
      if bs.Err? {
        return Err(FetchFailed(bs.error));
      }
      if bs.value == [] {
        return Err(NoBooks);
      }
      var randomBook := bs.value[PickIndex(pick, |bs.value|)];
      r := Ok(Slug(randomBook.name));
    }

    /**
     * The regeneration step of `getRandomPassage`: load one book's passages (the selected
     * book, or a random one for "all"), shuffle them into the queue and reset the cursor.
     * A failure leaves the queue and cursor as they were.
     */
    method Refill(quoteLengths: seq<int>,
                  books: Result<seq<Book>, JsonData.FetchError>,
                  fetchBook: string -> Result<BookData, JsonData.FetchError>,
                  pick: real, draw: nat -> int,
                  shuffle: seq<string> -> seq<string>)
      returns (failure: Option<PassageError>)
      requires 0.0 <= pick < 1.0 && ValidDraws(draw) && IsShuffle(shuffle)
      modifies this
      ensures selectedBook == old(selectedBook) && storedBook == old(storedBook)
      ensures var loaded := Regenerated(old(selectedBook), old(booksCache), books, fetchBook,
                                        pick, draw, quoteLengths);
        (loaded.Err? ==> failure == Some(loaded.error) && queue == old(queue) && queueIndex == old(queueIndex)) &&
        (loaded.Ok? ==> failure.None? && queue == shuffle(loaded.value) &&
                        multiset(queue) == multiset(loaded.value) && queueIndex == 0)
      ensures old(selectedBook) == "all" && old(booksCache).None? ==>
        booksCache == if books.Ok? then Some(books.value) else None
      ensures !(old(selectedBook) == "all" && old(booksCache).None?) ==> booksCache == old(booksCache)
      ensures requested == old(requested) + ListRequests(old(selectedBook), old(booksCache)) +
        BookRequests(TargetSlug(old(selectedBook), old(booksCache), books, pick))
    {
      ghost var target := Regenerated(selectedBook, booksCache, books, fetchBook, pick, draw, quoteLengths);
      ghost var log := requested + ListRequests(selectedBook, booksCache);
      var slug := ChooseSlug(books, pick);
      assert requested == log;
      if slug.Err? {
        assert target == Err(slug.error);
        assert requested == log + BookRequests(slug);
        return Some(slug.error);
      }
      requested := requested + [BookUrl(slug.value)];
      assert requested == log + BookRequests(slug);
      var loaded := LoadPassages(fetchBook(BookUrl(slug.value)), draw, quoteLengths);
      assert target == loaded;
      if loaded.Err? {
        return Some(loaded.error);
      }
      queue := shuffle(loaded.value);
      queueIndex := 0;
      failure := None;
    }

    /**
     * `getRandomPassage(quoteLengths)`: when the queue is exhausted, regenerate it; then serve
     * the item at the cursor and advance it by one. An empty queue serves `undefined` (None).
     */
    method GetRandomPassage(quoteLengths: seq<int>,
                            books: Result<seq<Book>, JsonData.FetchError>,
                            fetchBook: string -> Result<BookData, JsonData.FetchError>,
                            pick: real, draw: nat -> int,
                            shuffle: seq<string> -> seq<string>)
      returns (r: Result<Option<string>, PassageError>)
      requires Valid()
      requires 0.0 <= pick < 1.0 && ValidDraws(draw) && IsShuffle(shuffle)
      modifies this
      ensures Valid()
      ensures selectedBook == old(selectedBook) && storedBook == old(storedBook)
      ensures !old(Exhausted()) ==>
        r == Ok(Some(old(queue)[old(queueIndex)])) &&
        queue == old(queue) && queueIndex == old(queueIndex) + 1 &&
        booksCache == old(booksCache) && requested == old(requested)
      ensures old(Exhausted()) ==>
        var loaded := Regenerated(old(selectedBook), old(booksCache), books, fetchBook,
                                  pick, draw, quoteLengths);
        (loaded.Err? ==> r == Err(loaded.error) && queue == old(queue) && queueIndex == old(queueIndex)) &&
        (loaded.Ok? ==>
          queue == shuffle(loaded.value) && multiset(queue) == multiset(loaded.value) &&
          queueIndex == 1 && r == Ok(if queue == [] then None else Some(queue[0])))
      ensures old(Exhausted()) && old(selectedBook) == "all" && old(booksCache).None? ==>
        booksCache == if books.Ok? then Some(books.value) else None
      ensures !(old(Exhausted()) && old(selectedBook) == "all" && old(booksCache).None?) ==>
        booksCache == old(booksCache)
      ensures old(Exhausted()) ==>
        requested == old(requested) + ListRequests(old(selectedBook), old(booksCache)) +
          BookRequests(TargetSlug(old(selectedBook), old(booksCache), books, pick))
    {
      if |queue| == 0 || queueIndex >= |queue| {
        var failure := Refill(quoteLengths, books, fetchBook, pick, draw, shuffle);
        if failure.Some? {
          return Err(failure.value);
        }
      }
      r := Ok(if queueIndex < |queue| then Some(queue[queueIndex]) else None);
      queueIndex := queueIndex + 1;
    }
  }
}
