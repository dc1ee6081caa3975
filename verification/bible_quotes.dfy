/**
 * The quote generator script: it parses curated references such as "Psalm 23:1-6", looks the
 * verses up in downloaded book files, and writes quotes with sequential ids, bucketed by
 * length.
 *
 * Downloads are inputs: `outcome(name)` is what fetching a book's file yields (None for a
 * failure). The console output and the written file are not modelled.
 */
module BibleQuotes {
  import opened Wrappers
  import opened Text
  import opened Seqs

  // ---------------------------------------------------------------- references

  /** A parsed reference: book, chapter, first and last verse. */
  datatype Reference = Reference(book: string, chapter: nat, start: nat, end: nat)

  predicate NoNewline(s: string) {
    forall k :: 0 <= k < |s| ==> s[k] != '\n'
  }

  /** Where the pattern's `$` can match: at the very end, or before a final newline. */
  predicate AtEnd(t: string, i: nat) {
    i == |t| || (i == |t| - 1 && t[i] == '\n')
  }

  /**
   * `t` split as the tail of the reference pattern, `\s+(\d+):(\d+)(?:-(\d+))?$`: whitespace
   * up to `a`, the chapter digits up to `b`, a colon, the verse digits up to `c`, then either
   * nothing (`d == c`) or a `-` and the end digits up to `d`, and then the end of the string or
   * a final newline.
   */
  ghost predicate TailSplit(t: string, a: nat, b: nat, c: nat, d: nat) {
    0 < a < b && b + 1 < c <= d <= |t| &&
    (forall k :: 0 <= k < a ==> IsSpace(t[k])) &&
    (forall k :: a <= k < b ==> IsDigit(t[k])) &&
    t[b] == ':' &&
    (forall k :: b + 1 <= k < c ==> IsDigit(t[k])) &&
    (d == c || (c + 1 < d && t[c] == '-' && forall k :: c + 1 <= k < d ==> IsDigit(t[k]))) &&
    AtEnd(t, d)
  }

  /** The chapter, start and end a split denotes; the end defaults to the start. */
  ghost function SplitValues(t: string, a: nat, b: nat, c: nat, d: nat): (nat, nat, nat)
    requires TailSplit(t, a, b, c, d)
  {
    assert AllDigits(t[a..b]) && AllDigits(t[b + 1..c]);
    var start := DigitsValue(t[b + 1..c]);
    var end := if d == c then start else assert AllDigits(t[c + 1..d]); DigitsValue(t[c + 1..d]);
    (DigitsValue(t[a..b]), start, end)
  }

  /**
   * The tail of the pattern matched against `t` from its first character: at least one
   * whitespace character, then the chapter and verses.
   */
  function MatchTail(t: string): Option<(nat, nat, nat)> {
    var a := SkipSpaces(t, 0);
    if a == 0 then None else MatchNumbers(t, a)
  }

  /** `(\d+):(\d+)(?:-(\d+))?$` matched from `t[a]` on. */
  function MatchNumbers(t: string, a: nat): Option<(nat, nat, nat)>
    requires a <= |t|
  {
    var b := SkipDigits(t, a);
    if b == a || b == |t| || t[b] != ':' then None
    else
      var c := SkipDigits(t, b + 1);
      if c == b + 1 then None
      else
        assert AllDigits(t[a..b]) && AllDigits(t[b + 1..c]);
        var start := DigitsValue(t[b + 1..c]);
        match MatchEnd(t, c)
        case None => None
        case Some(end) => Some((DigitsValue(t[a..b]), start, end.GetOr(start)))
  }

  /** `(?:-(\d+))?$` matched from `t[c]` on: fails (None), or yields the end verse if given. */
  function MatchEnd(t: string, c: nat): Option<Option<nat>>
    requires c <= |t|
  {
    if AtEnd(t, c) then Some(None)
    else if t[c] == '-' then
      var d := SkipDigits(t, c + 1);
      assert AllDigits(t[c + 1..d]);
      if d > c + 1 && AtEnd(t, d) then Some(Some(DigitsValue(t[c + 1..d]))) else None
    else None
  }

  /** A successful tail match comes from a split of `t` as the pattern describes it. */
  lemma MatchTailSound(t: string)
    ensures MatchTail(t).Some? ==>
      exists a, b, c, d :: TailSplit(t, a, b, c, d) && MatchTail(t).value == SplitValues(t, a, b, c, d)
  {
    if MatchTail(t).Some? {
      var a := SkipSpaces(t, 0);
      var b := SkipDigits(t, a);
      var c := SkipDigits(t, b + 1);
      var d := if AtEnd(t, c) then c else SkipDigits(t, c + 1);
      assert TailSplit(t, a, b, c, d);
    }
  }

  /** Every split the pattern describes is found by the tail match, with the same values. */
  lemma MatchTailComplete(t: string, a: nat, b: nat, c: nat, d: nat)
    requires TailSplit(t, a, b, c, d)
    ensures MatchTail(t) == Some(SplitValues(t, a, b, c, d))
  {
    SkipSpacesTo(t, 0, a);
    SkipDigitsTo(t, a, b);
    SkipDigitsTo(t, b + 1, c);
    MatchEndComplete(t, c, d);
  }

  /** The optional end group and the `$` of a split, found by `MatchEnd`. */
  lemma MatchEndComplete(t: string, c: nat, d: nat)
    requires c <= d <= |t| && AtEnd(t, d)
    requires d == c || (c + 1 < d && t[c] == '-' && forall k :: c + 1 <= k < d ==> IsDigit(t[k]))
    ensures d == c ==> MatchEnd(t, c) == Some(None)
    ensures d != c ==> AllDigits(t[c + 1..d]) && MatchEnd(t, c) == Some(Some(DigitsValue(t[c + 1..d])))
  {
    if d != c {
      SkipDigitsTo(t, c + 1, d);
    }
  }

  /** `re.match(pattern, s)` with the book group `.+?` tried at lengths `n`, `n + 1`, ... */
  function ParseFrom(s: string, n: nat): Option<Reference>
    requires n >= 1
    decreases |s| + 1 - n
  {
    if n > |s| || s[n - 1] == '\n' then None   // `.` does not match a newline
    else
      match MatchTail(s[n..])
      case Some((chapter, start, end)) => Some(Reference(s[..n], chapter, start, end))
      case None => ParseFrom(s, n + 1)
  }

  /** `parse_reference(ref)`. */
  function ParseReference(s: string): Option<Reference> {
    ParseFrom(s, 1)
  }

  /** `s` spells `r` as the whole pattern does, with `r.book` as the book group. */
  ghost predicate Matches(s: string, r: Reference) {
    var n := |r.book|;
    1 <= n <= |s| && s[..n] == r.book && NoNewline(r.book) &&
    exists a, b, c, d :: TailSplit(s[n..], a, b, c, d) &&
      (r.chapter, r.start, r.end) == SplitValues(s[n..], a, b, c, d)
  }

  lemma {:induction false} ParseFromSpec(s: string, n: nat)
    requires 1 <= n <= |s| + 1 && NoNewline(s[..n - 1])
    ensures ParseFrom(s, n).Some? ==>
      Matches(s, ParseFrom(s, n).value) && |ParseFrom(s, n).value.book| >= n &&
      forall r :: Matches(s, r) && |r.book| >= n ==> |ParseFrom(s, n).value.book| <= |r.book|
    ensures ParseFrom(s, n).None? ==> forall r :: Matches(s, r) ==> |r.book| < n
    decreases |s| + 1 - n
  {
    if n > |s| {
    } else if s[n - 1] == '\n' {
      forall r | Matches(s, r)
        ensures |r.book| < n
      {
      }
    } else {
      assert s[..n] == s[..n - 1] + [s[n - 1]];
      match MatchTail(s[n..]) {
        case Some(v) =>
          MatchTailSound(s[n..]);
        case None =>
          forall r | Matches(s, r) && |r.book| == n
            ensures false
          {
            var a, b, c, d :| TailSplit(s[n..], a, b, c, d);
            MatchTailComplete(s[n..], a, b, c, d);
          }
          ParseFromSpec(s, n + 1);
      }
    }
  }

  /**
   * `parse_reference` succeeds exactly when some split of the string matches the pattern, and
   * then returns the split with the shortest book.
   */
  lemma ParseReferenceSpec(s: string)
    ensures ParseReference(s).Some? ==>
      Matches(s, ParseReference(s).value) &&
      forall r :: Matches(s, r) ==> |ParseReference(s).value.book| <= |r.book|
    ensures ParseReference(s).None? <==> forall r :: !Matches(s, r)
  {
    ParseFromSpec(s, 1);
  }

  // ---------------------------------------------------------------- format_source

  /** The part of a source string after the book: " C:S", or " C:S-E" for a range. */
  function SourceTail(chapter: int, start: int, end: int): string {
    if start == end then " " + IntStr(chapter) + ":" + IntStr(start)
    else " " + IntStr(chapter) + ":" + IntStr(start) + "-" + IntStr(end)
  }

  /** `format_source(book, chapter, start_verse, end_verse)`. */
  function FormatSource(book: string, chapter: int, start: int, end: int): (r: string)
    ensures |r| > |book| && r[..|book|] == book && r[|book|] == ' '
  {
    book + SourceTail(chapter, start, end)
  }

  /** In a tail split, a plain space can only belong to the leading whitespace. */
  lemma SplitSpacesLead(t: string, a: nat, b: nat, c: nat, d: nat, k: nat)
    ensures TailSplit(t, a, b, c, d) && k < |t| && t[k] == ' ' ==> k < a
  {
  }

  /**
   * A tail laid out as a space, the chapter digits `cs` up to `a`, a colon, the verse digits
   * `ss` up to `c`, and then either nothing or a `-` and the end digits `es`, is a split of
   * the pattern denoting the numbers those digits spell.
   */
  lemma SplitOfParts(t: string, a: nat, c: nat, cs: string, ss: string, es: string)
    requires cs != [] && ss != [] && AllDigits(cs) && AllDigits(ss) && AllDigits(es)
    requires a == 1 + |cs| && c == a + 1 + |ss| && c <= |t|
    requires t[0] == ' ' && t[1..a] == cs && t[a] == ':' && t[a + 1..c] == ss
    requires c == |t| || (es != [] && t[c] == '-' && t[c + 1..|t|] == es)
    ensures TailSplit(t, 1, a, c, |t|)
    ensures SplitValues(t, 1, a, c, |t|) ==
      (DigitsValue(cs), DigitsValue(ss), if c == |t| then DigitsValue(ss) else DigitsValue(es))
  {
    forall k | 1 <= k < a
      ensures IsDigit(t[k])
    {
      assert t[k] == t[1..a][k - 1];
    }
    forall k | a + 1 <= k < c
      ensures IsDigit(t[k])
    {
      assert t[k] == t[a + 1..c][k - a - 1];
    }
    if c < |t| {
      forall k | c + 1 <= k < |t|
        ensures IsDigit(t[k])
      {
        assert t[k] == t[c + 1..|t|][k - c - 1];
      }
    }
    assert TailSplit(t, 1, a, c, |t|);
  }

  /** Where the parts of `" C:S"` or `" C:S-E"` lie. */
  lemma SourceLayout(cs: string, ss: string, es: string, t: string, ranged: bool)
    requires t == if ranged then " " + cs + ":" + ss + "-" + es else " " + cs + ":" + ss
    ensures |t| == 2 + |cs| + |ss| + (if ranged then 1 + |es| else 0)
    ensures t[0] == ' ' && t[1..1 + |cs|] == cs && t[1 + |cs|] == ':'
    ensures t[2 + |cs|..2 + |cs| + |ss|] == ss
    ensures ranged ==> t[2 + |cs| + |ss|] == '-' && t[3 + |cs| + |ss|..|t|] == es
  {
  }

  /**
   * When the book group `s[..L]` cannot end in whitespace, no shorter book leaves a tail the
   * pattern matches: its tail would hold the space at `s[L]` after the chapter's digits began.
   */
  lemma {:induction false} ParseFromShortest(s: string, n: nat, book: string, v: (nat, nat, nat))
    requires book != [] && NoNewline(book) && (|book| == 1 || !IsSpace(book[|book| - 1]))
    requires |s| > |book| && s[..|book|] == book && s[|book|] == ' '
    requires 1 <= n <= |book|
    requires MatchTail(s[|book|..]) == Some(v)
    ensures ParseFrom(s, n) == Some(Reference(book, v.0, v.1, v.2))
    decreases |book| - n
  {
    assert s[..|book|][n - 1] == s[n - 1];
    if n < |book| {
      NoTailInsideBook(s, n, book);
      ParseFromShortest(s, n + 1, book, v);
    }
  }

  /** No tail match starts inside the book: the space that follows it would have to be a digit. */
  lemma NoTailInsideBook(s: string, n: nat, book: string)
    requires book != [] && (|book| == 1 || !IsSpace(book[|book| - 1]))
    requires |s| > |book| && s[..|book|] == book && s[|book|] == ' '
    requires 1 <= n < |book|
    ensures MatchTail(s[n..]).None?
  {
    var L := |book|;
    var t := s[n..];
    assert t[L - n] == ' ';
    assert s[..L][L - 1] == t[L - 1 - n];
    forall a: nat, b: nat, c: nat, d: nat
      ensures !TailSplit(t, a, b, c, d)
    {
      SplitSpacesLead(t, a, b, c, d, L - n);
    }
    MatchTailSound(t);
  }

  /** `s` formatted from `parse_reference`'s parts reads back as those parts. */
  lemma FormatSourceRoundTrip(book: string, chapter: nat, start: nat, end: nat)
    requires book != [] && NoNewline(book) && (|book| == 1 || !IsSpace(book[|book| - 1]))
    ensures ParseReference(FormatSource(book, chapter, start, end)) == Some(Reference(book, chapter, start, end))
  {
    FormatSourceTail(book, chapter, start, end);
    SourceTailMatch(chapter, start, end);
    ParseFromShortest(FormatSource(book, chapter, start, end), 1, book, (chapter, start, end));
  }

  lemma FormatSourceTail(book: string, chapter: nat, start: nat, end: nat)
    ensures FormatSource(book, chapter, start, end)[|book|..] == SourceTail(chapter, start, end)
  {
    var s := FormatSource(book, chapter, start, end);
    assert s == book + SourceTail(chapter, start, end);
  }

  /** The tail `format_source` writes after the book is matched, with the numbers it spells. */
  lemma SourceTailMatch(chapter: nat, start: nat, end: nat)
    ensures MatchTail(SourceTail(chapter, start, end)) == Some((chapter, start, end))
  {
    NatStrValue(chapter);
    NatStrValue(start);
    NatStrValue(end);
    NumeralsMatch(chapter, start, end, NatStr(chapter), NatStr(start), NatStr(end), SourceTail(chapter, start, end));
  }

  /** A tail `" C:S"` or `" C:S-E"` of digit strings is matched, with the values they denote. */
  lemma NumeralsMatch(chapter: nat, start: nat, end: nat, cs: string, ss: string, es: string, t: string)
    requires cs != [] && ss != [] && es != [] && AllDigits(cs) && AllDigits(ss) && AllDigits(es)
    requires DigitsValue(cs) == chapter && DigitsValue(ss) == start && DigitsValue(es) == end
    requires t == if start == end then " " + cs + ":" + ss else " " + cs + ":" + ss + "-" + es
    ensures MatchTail(t) == Some((chapter, start, end))
  {
    var a, c := 1 + |cs|, 2 + |cs| + |ss|;
    SourceLayout(cs, ss, es, t, start != end);
    SplitOfParts(t, a, c, cs, ss, es);
    MatchTailComplete(t, 1, a, c, |t|);
  }


  /** One more whitespace character before a split is absorbed by its `\s+`. */
  lemma SplitShift(x: char, t: string, a: nat, b: nat, c: nat, d: nat)
    requires TailSplit(t, a, b, c, d) && IsSpace(x)
    ensures TailSplit([x] + t, a + 1, b + 1, c + 1, d + 1)
    ensures SplitValues([x] + t, a + 1, b + 1, c + 1, d + 1) == SplitValues(t, a, b, c, d)
  {
    var u := [x] + t;
    assert u[a + 1..b + 1] == t[a..b];
    assert u[b + 2..c + 1] == t[b + 1..c];
    if d != c {
      assert u[c + 2..d + 1] == t[c + 1..d];
    }
    assert TailSplit(u, a + 1, b + 1, c + 1, d + 1);
  }

  /**
   * The book `parse_reference` returns is non-empty, holds no newline, and ends in whitespace
   * only when it is a single character: a longer book ending in whitespace would leave a
   * shorter one that also matches.
   */
  lemma ParsedBookShape(s: string)
    requires ParseReference(s).Some?
    ensures var book := ParseReference(s).value.book;
      book != [] && NoNewline(book) && (|book| == 1 || !IsSpace(book[|book| - 1]))
  {
    ParseReferenceSpec(s);
    var r := ParseReference(s).value;
    var n := |r.book|;
    if n > 1 && IsSpace(r.book[n - 1]) {
      DropTrailingSpace(s, r);
      assert false;
    }
  }

  /** A match whose book ends in whitespace gives a match with that character left out. */
  lemma DropTrailingSpace(s: string, r: Reference)
    requires Matches(s, r) && |r.book| > 1 && IsSpace(r.book[|r.book| - 1])
    ensures Matches(s, Reference(r.book[..|r.book| - 1], r.chapter, r.start, r.end))
  {
    var m := |r.book| - 1;
    var a: nat, b: nat, c: nat, d: nat :| TailSplit(s[m + 1..], a, b, c, d) &&
      (r.chapter, r.start, r.end) == SplitValues(s[m + 1..], a, b, c, d);
    assert s[..m + 1][m] == s[m];
    var book := r.book[..m];
    assert s[..m] == book;
    assert NoNewline(book) by {
      forall k | 0 <= k < m ensures book[k] != '\n' {
        assert book[k] == r.book[k];
      }
    }
    ShiftedMatch(s, m, book, (r.chapter, r.start, r.end), a, b, c, d);
  }

  /** A book followed by whitespace and a split of the rest matches, the whitespace going to `\s+`. */
  lemma ShiftedMatch(s: string, m: nat, book: string, v: (nat, nat, nat), a: nat, b: nat, c: nat, d: nat)
    requires m == |book| && 1 <= m < |s| && s[..m] == book && NoNewline(book) && IsSpace(s[m])
    requires TailSplit(s[m + 1..], a, b, c, d) && v == SplitValues(s[m + 1..], a, b, c, d)
    ensures Matches(s, Reference(book, v.0, v.1, v.2))
  {
    ShiftedSplit(s, m, a, b, c, d);
    MatchesOfSplit(s, m, book, v, a + 1, b + 1, c + 1, d + 1);
  }

  /** A split of what follows a newline-free prefix makes that prefix a matching book. */
  lemma MatchesOfSplit(s: string, n: nat, book: string, v: (nat, nat, nat), a: nat, b: nat, c: nat, d: nat)
    requires n == |book| && 1 <= n <= |s| && s[..n] == book && NoNewline(book)
    requires TailSplit(s[n..], a, b, c, d) && v == SplitValues(s[n..], a, b, c, d)
    ensures Matches(s, Reference(book, v.0, v.1, v.2))
  {
  }

  /** `SplitShift` for the whitespace character at `s[m]`. */
  lemma ShiftedSplit(s: string, m: nat, a: nat, b: nat, c: nat, d: nat)
    requires m < |s| && IsSpace(s[m]) && TailSplit(s[m + 1..], a, b, c, d)
    ensures TailSplit(s[m..], a + 1, b + 1, c + 1, d + 1)
    ensures SplitValues(s[m..], a + 1, b + 1, c + 1, d + 1) == SplitValues(s[m + 1..], a, b, c, d)
  {
    assert s[m..] == [s[m]] + s[m + 1..];
    SplitShift(s[m], s[m + 1..], a, b, c, d);
  }

  /** Formatting a parsed reference gives a string that parses back to the same reference. */
  lemma ParseFormatParse(s: string)
    requires ParseReference(s).Some?
    ensures var r := ParseReference(s).value;
      ParseReference(FormatSource(r.book, r.chapter, r.start, r.end)) == Some(r)
  {
    ParsedBookShape(s);
    var r := ParseReference(s).value;
    FormatSourceRoundTrip(r.book, r.chapter, r.start, r.end);
  }

  // ---------------------------------------------------------------- book files

  /** A verse of a downloaded book file; its number is already read as an integer. */
  datatype VerseJson = VerseJson(verse: int, text: string)

  /** A chapter entry; `verses` is None when the entry has no "verses" key. */
  datatype ChapterJson = ChapterJson(chapter: int, verses: Option<seq<VerseJson>>)

  /**
   * A book file's top-level object: its "chapters" entry, if any, and how many other keys it
   * has (a JSON object is falsy in Python exactly when it has no keys).
   */
  datatype BookJson = BookJson(chapters: Option<seq<ChapterJson>>, otherKeys: nat)

  predicate Truthy(b: BookJson) {
    b.chapters.Some? || b.otherKeys > 0
  }

  /** `BOOK_FILES.get(name)` is a non-empty file name. */
  predicate HasFile(files: map<string, string>, name: string) {
    name in files && files[name] != ""
  }

  /** The books that downloading each of `names` adds to an empty cache. */
  ghost function Fetched(files: map<string, string>, names: set<string>, outcome: string -> Option<BookJson>): map<string, BookJson> {
    map name | name in names && HasFile(files, name) && outcome(name).Some? :: outcome(name).value
  }

  /**
   * `download_book` and its `cache` dict: `files` is the table from book names to file names,
   * `books` the cache, and `downloads` the files fetched so far.
   */
  class BookCache {
    const files: map<string, string>
    var books: map<string, BookJson>
    ghost var downloads: seq<string>

    /** Only books with a file name are cached, each after a download of that file. */
    ghost predicate Valid()
      reads this
    {
      forall name :: name in books ==> HasFile(files, name) && files[name] in downloads
    }

    constructor(files: map<string, string>)
      ensures this.files == files && books == map[] && downloads == []
      ensures Valid()
    {
      this.files := files;
      books := map[];
      downloads := [];
    }

    /**
     * `download_book(name, cache)`, where `fetched` is what downloading the book's file would
     * yield (None for a failed request or unreadable body).
     */
    method DownloadBook(name: string, fetched: Option<BookJson>) returns (r: Option<BookJson>)
      requires Valid()
      modifies this
      ensures Valid()
      ensures name in old(books) ==>
        r == Some(old(books)[name]) && books == old(books) && downloads == old(downloads)
      ensures name !in old(books) && !HasFile(files, name) ==>
        r.None? && books == old(books) && downloads == old(downloads)
      ensures name !in old(books) && HasFile(files, name) ==>
        r == fetched && downloads == old(downloads) + [files[name]] &&
        books == if fetched.Some? then old(books)[name := fetched.value] else old(books)
    {
      if name in books {
        return Some(books[name]);
      }
      if !HasFile(files, name) {
        return None;
      }
      downloads := downloads + [files[name]];
      if fetched.Some? {
        books := books[name := fetched.value];
      }
      r := fetched;
    }

    /**
     * `for book_name in sorted(books_needed): download_book(book_name, book_cache)`, with
     * `outcome(name)` the result of downloading `name`'s file. Books already cached keep their
     * cached data.
     */
    method DownloadAll(needed: set<string>, outcome: string -> Option<BookJson>)
      requires Valid()
      modifies this
      ensures Valid()
      ensures books == Fetched(files, needed, outcome) + old(books)
      ensures |old(downloads)| <= |downloads| && downloads[..|old(downloads)|] == old(downloads)
      ensures forall f :: f in downloads[|old(downloads)|..] <==> Downloaded(needed, old(books), f)
    {
      var remaining := needed;
      ghost var start := books;
      ghost var before := downloads;
      while remaining != {}
        invariant Valid() && remaining <= needed
        invariant books == Fetched(files, needed - remaining, outcome) + start
        invariant |before| <= |downloads| && downloads[..|before|] == before
        invariant forall f :: f in downloads[|before|..] <==> Downloaded(needed - remaining, start, f)
        decreases |remaining|
      {
        var name :| name in remaining;
        ghost var done := needed - remaining;
        ghost var prev := downloads;
        var _ := DownloadBook(name, outcome(name));
        remaining := remaining - {name};
        assert needed - remaining == done + {name};
        DownloadedAdd(done, start, name, prev[|before|..], downloads[|before|..]);
        FetchedAdd(done, name, outcome);
        if HasFile(files, name) && outcome(name).Some? {
          if name in start {
            UpdateShadowed(Fetched(files, done, outcome), start, name, outcome(name).value);
          } else {
            UpdateUnion(Fetched(files, done, outcome), start, name, outcome(name).value);
          }
        }
      }
    }

    /** `f` is the file of a book in `names` that was not cached at the start and has a file. */
    ghost predicate Downloaded(names: set<string>, start: map<string, BookJson>, f: string)
      reads this
    {
      exists name :: name in names && name !in start && HasFile(files, name) && files[name] == f
    }

    /** One more name adds its file to the new downloads exactly when it was uncached and mapped. */
    lemma DownloadedAdd(done: set<string>, start: map<string, BookJson>, name: string,
                        prev: seq<string>, next: seq<string>)
      requires forall f :: f in prev <==> Downloaded(done, start, f)
      requires next == if name !in start && HasFile(files, name) then prev + [files[name]] else prev
      ensures forall f :: f in next <==> Downloaded(done + {name}, start, f)
    {
      forall f
        ensures f in next <==> Downloaded(done + {name}, start, f)
      {
        if Downloaded(done + {name}, start, f) && f !in prev {
          var n :| n in done + {name} && n !in start && HasFile(files, n) && files[n] == f;
          if n != name {
            assert Downloaded(done, start, f);
          }
        }
        if f in prev {
          var n :| n in done && n !in start && HasFile(files, n) && files[n] == f;
          assert n in done + {name};
        }
      }
    }

    /** Downloading one more name adds its book when its download succeeds. */
    lemma FetchedAdd(done: set<string>, name: string, outcome: string -> Option<BookJson>)
      requires name !in done
      ensures Fetched(files, done + {name}, outcome) ==
        if HasFile(files, name) && outcome(name).Some? then Fetched(files, done, outcome)[name := outcome(name).value]
        else Fetched(files, done, outcome)
    {
    }
  }

  // ---------------------------------------------------------------- extract_verses

  /** Index of the first chapter entry numbered `chapter`, if any. */
  function FirstChapter(chapters: seq<ChapterJson>, chapter: int): (r: Option<nat>)
    ensures r.Some? ==> r.value < |chapters| && chapters[r.value].chapter == chapter
    ensures r.Some? ==> forall i :: 0 <= i < r.value ==> chapters[i].chapter != chapter
    ensures r.None? ==> forall i :: 0 <= i < |chapters| ==> chapters[i].chapter != chapter
    decreases |chapters|
  {
    if chapters == [] then None
    else if chapters[0].chapter == chapter then Some(0)
    else match FirstChapter(chapters[1..], chapter)
      case None => None
      case Some(i) => Some(i + 1)
  }

  predicate InRange(v: VerseJson, start: int, end: int) {
    start <= v.verse <= end
  }

  /** The stripped texts of the verses numbered within `[start, end]`, in stored order. */
  function RangeTexts(verses: seq<VerseJson>, start: int, end: int): seq<string>
    decreases |verses|
  {
    if verses == [] then []
    else
      var last := verses[|verses| - 1];
      RangeTexts(verses[..|verses| - 1], start, end) +
        (if InRange(last, start, end) then [Strip(last.text)] else [])
  }

  /** What `extract_verses` returns, stated on the whole book. */
  function Extracted(book: BookJson, chapter: int, start: int, end: int): Option<string> {
    var chapters := book.chapters.GetOr([]);
    match FirstChapter(chapters, chapter)
    case None => None
    case Some(i) =>
      var texts := RangeTexts(chapters[i].verses.GetOr([]), start, end);
      if texts == [] then None else Some(Join(texts, " "))
  }

  /** `extract_verses(book_data, chapter, start_verse, end_verse)`. */
  method ExtractVerses(book: BookJson, chapter: int, start: int, end: int) returns (r: Option<string>)
    ensures r == Extracted(book, chapter, start, end)
  {
    var chapters := book.chapters.GetOr([]);
    var i := 0;
    while i < |chapters|
      invariant i <= |chapters|
      invariant forall j :: 0 <= j < i ==> chapters[j].chapter != chapter
    {
      if chapters[i].chapter == chapter {
        var texts := CollectRange(chapters[i].verses.GetOr([]), start, end);
        if texts != [] {
          return Some(Join(texts, " "));
        }
        break;
      }
      i := i + 1;
    }
    r := None;
  }

  /** The inner loop of `extract_verses`: the stripped texts of the verses in range. */
  method CollectRange(verses: seq<VerseJson>, start: int, end: int) returns (texts: seq<string>)
    ensures texts == RangeTexts(verses, start, end)
  {
    texts := [];
    var k := 0;
    while k < |verses|
      invariant k <= |verses|
      invariant texts == RangeTexts(verses[..k], start, end)
    {
      assert verses[..k + 1][..k] == verses[..k];
      if InRange(verses[k], start, end) {
        texts := texts + [Strip(verses[k].text)];
      }
      k := k + 1;
    }
    assert verses[..k] == verses;
  }

  /** Each verse's text, stripped. */
  function StripTexts(verses: seq<VerseJson>): (r: seq<string>)
    ensures |r| == |verses|
    ensures forall k :: 0 <= k < |verses| ==> r[k] == Strip(verses[k].text)
  {
    seq(|verses|, k requires 0 <= k < |verses| => Strip(verses[k].text))
  }

  /** The selected texts are those of the in-range verses, kept in stored order. */
  lemma {:induction false} RangeTextsAreFilter(verses: seq<VerseJson>, start: int, end: int)
    ensures RangeTexts(verses, start, end) == StripTexts(Filter(verses, v => InRange(v, start, end)))
    decreases |verses|
  {
    if verses != [] {
      var init := verses[..|verses| - 1];
      var last := verses[|verses| - 1];
      assert verses == init + [last];
      RangeTextsAreFilter(init, start, end);
      FilterSnoc(init, last, v => InRange(v, start, end));
    }
  }

  /** No text is selected exactly when no verse's number lies in the range. */
  lemma {:induction false} RangeTextsEmpty(verses: seq<VerseJson>, start: int, end: int)
    ensures RangeTexts(verses, start, end) == [] <==> forall k :: 0 <= k < |verses| ==> !InRange(verses[k], start, end)
    decreases |verses|
  {
    if verses != [] {
      var init := verses[..|verses| - 1];
      RangeTextsEmpty(init, start, end);
      assert forall k :: 0 <= k < |init| ==> init[k] == verses[k];
    }
  }

  /**
   * `extract_verses` yields a text exactly when some chapter entry has the number and the
   * first such entry has a verse in range; the text is then the selected verses joined by
   * single spaces.
   */
  lemma ExtractedSpec(book: BookJson, chapter: int, start: int, end: int)
    ensures var chapters := book.chapters.GetOr([]);
      Extracted(book, chapter, start, end).Some? <==>
        FirstChapter(chapters, chapter).Some? &&
        exists k :: 0 <= k < |chapters[FirstChapter(chapters, chapter).value].verses.GetOr([])| &&
          InRange(chapters[FirstChapter(chapters, chapter).value].verses.GetOr([])[k], start, end)
    ensures var chapters := book.chapters.GetOr([]);
      Extracted(book, chapter, start, end).Some? ==>
        var verses := chapters[FirstChapter(chapters, chapter).value].verses.GetOr([]);
        Extracted(book, chapter, start, end).value ==
          Join(StripTexts(Filter(verses, v => InRange(v, start, end))), " ")
  {
    var chapters := book.chapters.GetOr([]);
    match FirstChapter(chapters, chapter)
    case None =>
    case Some(i) =>
      RangeTextsEmpty(chapters[i].verses.GetOr([]), start, end);
      RangeTextsAreFilter(chapters[i].verses.GetOr([]), start, end);
  }

  /** The first matching chapter stays first when more entries follow it. */
  lemma {:induction false} FirstChapterPrefix(chapters: seq<ChapterJson>, more: seq<ChapterJson>, chapter: int)
    requires FirstChapter(chapters, chapter).Some?
    ensures FirstChapter(chapters + more, chapter) == FirstChapter(chapters, chapter)
    decreases |chapters|
  {
    if chapters[0].chapter != chapter {
      assert (chapters + more)[1..] == chapters[1..] + more;
      FirstChapterPrefix(chapters[1..], more, chapter);
    }
  }

  /**
   * The `break`: once a chapter entry with the number is found, entries after it are never
   * looked at, even when the found one has no verse in range.
   */
  lemma LaterChaptersIgnored(chapters: seq<ChapterJson>, more: seq<ChapterJson>, others: nat,
                             chapter: int, start: int, end: int)
    requires exists i :: 0 <= i < |chapters| && chapters[i].chapter == chapter
    ensures Extracted(BookJson(Some(chapters + more), others), chapter, start, end) ==
      Extracted(BookJson(Some(chapters), others), chapter, start, end)
  {
    FirstChapterPrefix(chapters, more, chapter);
    var i := FirstChapter(chapters, chapter).value;
    assert (chapters + more)[i] == chapters[i];
  }

  // ---------------------------------------------------------------- main: references

  /** The categories' references one after another. */
  function Flatten(categories: seq<seq<string>>): seq<string>
    decreases |categories|
  {
    if categories == [] then []
    else Flatten(categories[..|categories| - 1]) + categories[|categories| - 1]
  }

  /** Every reference of every category is in the flattened list, and nothing else. */
  lemma {:induction false} FlattenMembers(categories: seq<seq<string>>, x: string)
    ensures x in Flatten(categories) <==> exists i :: 0 <= i < |categories| && x in categories[i]
    decreases |categories|
  {
    if categories != [] {
      var init := categories[..|categories| - 1];
      FlattenMembers(init, x);
      assert forall i :: 0 <= i < |init| ==> init[i] == categories[i];
    }
  }

  /** De-duplicating one more element keeps it only if it was not seen before. */
  lemma DedupSnoc<T>(s: seq<T>, x: T)
    ensures x in Dedup(s) <==> x in s
    ensures Dedup(s + [x]) == if x in s then Dedup(s) else Dedup(s) + [x]
  {
    DedupSpec(s);
    assert (s + [x])[..|s|] == s;
  }

  /** `DedupSnoc` for the next reference of a category. */
  lemma DedupStep(before: seq<string>, category: seq<string>, j: nat)
    requires j < |category|
    ensures var seen := before + category[..j];
      (category[j] in Dedup(seen) <==> category[j] in seen) &&
      Dedup(before + category[..j + 1]) ==
        if category[j] in seen then Dedup(seen) else Dedup(seen) + [category[j]]
  {
    DedupSnoc(before + category[..j], category[j]);
    assert before + category[..j + 1] == (before + category[..j]) + [category[j]];
  }

  /**
   * The loops of `main` that build `all_refs` with a `seen` set: the references of all
   * categories in order, each kept at its first occurrence only.
   */
  method CollectReferences(categories: seq<seq<string>>) returns (allRefs: seq<string>)
    ensures allRefs == Dedup(Flatten(categories))
  {
    allRefs := [];
    var seen: set<string> := {};
    var i := 0;
    while i < |categories|
      invariant i <= |categories|
      invariant allRefs == Dedup(Flatten(categories[..i]))
      invariant forall x :: x in seen <==> x in allRefs
    {
      assert categories[..i + 1][..i] == categories[..i];
      allRefs, seen := AddCategory(allRefs, seen, categories[i], Flatten(categories[..i]));
      i := i + 1;
    }
    assert categories[..i] == categories;
  }

  /** The inner loop: one category's references appended unless already seen. */
  method AddCategory(refs0: seq<string>, seen0: set<string>, category: seq<string>, ghost before: seq<string>)
    returns (refs: seq<string>, seen: set<string>)
    requires refs0 == Dedup(before) && forall x :: x in seen0 <==> x in refs0
    ensures refs == Dedup(before + category) && forall x :: x in seen <==> x in refs
  {
    refs, seen := refs0, seen0;
    var j := 0;
    assert before + category[..0] == before;
    while j < |category|
      invariant j <= |category|
      invariant refs == Dedup(before + category[..j])
      invariant forall x :: x in seen <==> x in refs
    {
      var ref := category[j];
      DedupStep(before, category, j);
      if ref !in seen {
        seen := seen + {ref};
        refs := refs + [ref];
      }
      j := j + 1;
    }
    assert category[..j] == category;
  }

  /**
   * `all_refs` holds each reference of each category exactly once, in the order of first
   * occurrence across the categories.
   */
  lemma AllRefsSpec(categories: seq<seq<string>>)
    ensures NoDup(Dedup(Flatten(categories)))
    ensures forall x :: x in Dedup(Flatten(categories)) <==>
      exists i :: 0 <= i < |categories| && x in categories[i]
    ensures forall i, j :: 0 <= i < j < |Dedup(Flatten(categories))| ==>
      FirstIndex(Flatten(categories), Dedup(Flatten(categories))[i]) <
      FirstIndex(Flatten(categories), Dedup(Flatten(categories))[j])
  {
    var all := Flatten(categories);
    DedupSpec(all);
    forall x
      ensures x in Dedup(all) <==> exists i :: 0 <= i < |categories| && x in categories[i]
    {
      FlattenMembers(categories, x);
    }
    DedupFirstOccurrenceOrder(all);
  }

  /** The books of the references that parse. */
  ghost function NeededBooks(refs: seq<string>): set<string> {
    set r | r in refs && ParseReference(r).Some? :: ParseReference(r).value.book
  }

  /** The loop of `main` that collects `books_needed`. */
  method BooksNeeded(refs: seq<string>) returns (books: set<string>)
    ensures books == NeededBooks(refs)
  {
    books := {};
    var i := 0;
    while i < |refs|
      invariant i <= |refs|
      invariant books == NeededBooks(refs[..i])
    {
      var parsed := ParseReference(refs[i]);
      assert refs[..i + 1] == refs[..i] + [refs[i]];
      if parsed.Some? {
        books := books + {parsed.value.book};
      }
      i := i + 1;
    }
    assert refs[..i] == refs;
  }

  // ---------------------------------------------------------------- main: quotes

  /** An output quote; `id` is absent until ids are assigned. */
  datatype Quote = Quote(text: string, source: string, length: nat, id: Option<nat>)

  /** The quote `main` makes of one reference, or None when it skips the reference. */
  function QuoteFor(ref: string, books: map<string, BookJson>): Option<Quote> {
    match ParseReference(ref)
    case None => None
    case Some(r) =>
      if r.book !in books || !Truthy(books[r.book]) then None
      else
        match Extracted(books[r.book], r.chapter, r.start, r.end)
        case None => None
        case Some(text) =>
          if text == "" then None
          else Some(Quote(text, FormatSource(r.book, r.chapter, r.start, r.end), |text|, None))
  }

  /** The quotes of `refs`, in order, skipping those without one. */
  function Assembled(refs: seq<string>, books: map<string, BookJson>): seq<Quote>
    decreases |refs|
  {
    if refs == [] then []
    else
      var last := refs[|refs| - 1];
      Assembled(refs[..|refs| - 1], books) +
        match QuoteFor(last, books) case None => [] case Some(q) => [q]
  }

  /** The extraction loop of `main`. */
  method AssembleQuotes(refs: seq<string>, books: map<string, BookJson>) returns (quotes: seq<Quote>)
    ensures quotes == Assembled(refs, books)
  {
    quotes := [];
    var i := 0;
    while i < |refs|
      invariant i <= |refs|
      invariant quotes == Assembled(refs[..i], books)
    {
      AssembledStep(refs, i, books);
      var q := MakeQuote(refs[i], books);
      if q.Some? {
        quotes := quotes + [q.value];
      }
      i := i + 1;
    }
    assert refs[..i] == refs;
  }

  lemma AssembledStep(refs: seq<string>, i: nat, books: map<string, BookJson>)
    requires i < |refs|
    ensures Assembled(refs[..i + 1], books) ==
      Assembled(refs[..i], books) + match QuoteFor(refs[i], books) case None => [] case Some(q) => [q]
  {
    assert refs[..i + 1][..i] == refs[..i];
  }

  /** One iteration of the extraction loop: the quote of `ref`, or None for a skipped one. */
  method MakeQuote(ref: string, books: map<string, BookJson>) returns (q: Option<Quote>)
    ensures q == QuoteFor(ref, books)
  {
    var parsed := ParseReference(ref);
    if parsed.None? {
      return None;
    }
    var r := parsed.value;
    if r.book !in books || !Truthy(books[r.book]) {
      return None;
    }
    var text := ExtractVerses(books[r.book], r.chapter, r.start, r.end);
    if text.None? || text.value == "" {
      return None;
    }
    q := Some(Quote(text.value, FormatSource(r.book, r.chapter, r.start, r.end), |text.value|, None));
  }

  /**
   * A quote has a non-empty text, its length is the text's length, and its source parses to
   * the same reference as the line it was made from.
   */
  lemma QuoteForSpec(ref: string, books: map<string, BookJson>)
    requires QuoteFor(ref, books).Some?
    ensures var q := QuoteFor(ref, books).value;
      q.text != "" && q.length == |q.text| && q.id.None? &&
      ParseReference(ref).Some? && ParseReference(q.source) == ParseReference(ref)
  {
    ParseFormatParse(ref);
  }

  predicate Yields(ref: string, books: map<string, BookJson>) {
    QuoteFor(ref, books).Some?
  }

  /**
   * There is one quote per reference that yields one, in the order of the references, and it
   * is that reference's quote.
   */
  lemma {:induction false} AssembledSpec(refs: seq<string>, books: map<string, BookJson>)
    ensures var kept := Filter(refs, ref => Yields(ref, books));
      |Assembled(refs, books)| == |kept| &&
      forall i :: 0 <= i < |kept| ==> Some(Assembled(refs, books)[i]) == QuoteFor(kept[i], books)
    decreases |refs|
  {
    if refs != [] {
      var init := refs[..|refs| - 1];
      var last := refs[|refs| - 1];
      assert refs == init + [last];
      AssembledSpec(init, books);
      FilterSnoc(init, last, ref => Yields(ref, books));
    }
  }

  /** The quotes with ids `1..n` in order. */
  function WithIds(quotes: seq<Quote>): (r: seq<Quote>)
    ensures |r| == |quotes| && NumberedFromOne(r)
    ensures forall i :: 0 <= i < |r| ==> r[i].(id := None) == quotes[i].(id := None)
  {
    seq(|quotes|, i requires 0 <= i < |quotes| => quotes[i].(id := Some(i + 1)))
  }

  /** `for i, q in enumerate(quotes, start=1): q["id"] = i`. */
  method AssignIds(quotes: array<Quote>)
    modifies quotes
    ensures quotes[..] == WithIds(old(quotes[..]))
  {
    var i := 0;
    while i < quotes.Length
      invariant i <= quotes.Length
      invariant forall j :: 0 <= j < i ==> quotes[j] == old(quotes[j]).(id := Some(j + 1))
      invariant forall j :: i <= j < quotes.Length ==> quotes[j] == old(quotes[j])
    {
      quotes[i] := quotes[i].(id := Some(i + 1));
      i := i + 1;
    }
  }

  /**
   * `main` from the reference lists to the numbered quotes: collect the references, download
   * the books they name into an empty cache, extract the quotes and number them.
   */
  method GenerateQuotes(categories: seq<seq<string>>, files: map<string, string>,
                        outcome: string -> Option<BookJson>) returns (quotes: array<Quote>)
    ensures fresh(quotes)
    ensures var refs := Dedup(Flatten(categories));
      quotes[..] == WithIds(Assembled(refs, Fetched(files, NeededBooks(refs), outcome)))
  {
    var allRefs := CollectReferences(categories);
    var needed := BooksNeeded(allRefs);
    var cache := new BookCache(files);
    cache.DownloadAll(needed, outcome);
    assert cache.books == Fetched(files, needed, outcome);
    var assembled := AssembleQuotes(allRefs, cache.books);
    quotes := new Quote[|assembled|](i requires 0 <= i < |assembled| => assembled[i]);
    assert quotes[..] == assembled;
    AssignIds(quotes);
  }

  /** Ids `1..n` in order. */
  predicate NumberedFromOne(quotes: seq<Quote>) {
    forall i :: 0 <= i < |quotes| ==> quotes[i].id == Some(i + 1)
  }

  // ---------------------------------------------------------------- main: length buckets

  predicate IsShort(q: Quote) { q.length <= 100 }
  predicate IsMedium(q: Quote) { 101 <= q.length <= 300 }
  predicate IsLong(q: Quote) { q.length > 300 }

  function Short(quotes: seq<Quote>): seq<Quote> {
    Filter(quotes, IsShort)
  }

  function Medium(quotes: seq<Quote>): seq<Quote> {
    Filter(quotes, IsMedium)
  }

  function Long(quotes: seq<Quote>): seq<Quote> {
    Filter(quotes, IsLong)
  }

  /**
   * The three lists partition the quotes: each quote is in exactly the list its length
   * selects, as many times as it occurs, and each list holds only lengths in its range.
   */
  lemma BucketsPartition(quotes: seq<Quote>)
    ensures forall q ::
      multiset(quotes)[q] == multiset(Short(quotes))[q] + multiset(Medium(quotes))[q] + multiset(Long(quotes))[q]
    ensures forall q :: q in Short(quotes) ==> q.length <= 100
    ensures forall q :: q in Medium(quotes) ==> 101 <= q.length <= 300
    ensures forall q :: q in Long(quotes) ==> q.length > 300
  {
    forall q
      ensures multiset(quotes)[q] ==
        multiset(Short(quotes))[q] + multiset(Medium(quotes))[q] + multiset(Long(quotes))[q]
    {
      FilterMultiset(quotes, IsShort, q);
      FilterMultiset(quotes, IsMedium, q);
      FilterMultiset(quotes, IsLong, q);
    }
    forall q
      ensures q in Short(quotes) ==> q.length <= 100
      ensures q in Medium(quotes) ==> 101 <= q.length <= 300
      ensures q in Long(quotes) ==> q.length > 300
    {
      FilterMember(quotes, IsShort, q);
      FilterMember(quotes, IsMedium, q);
      FilterMember(quotes, IsLong, q);
    }
  }
}
