/**
 * The server's text handling in app.py: the data-file listing filter of the
 * index page, and the structure and word-list previews of /get-file-preview.
 * File contents and directory listings are passed in as values.
 */
module ServerText {
  import opened Protocol

  // ---------------------------------------------------------------------------
  // Python's str.strip() and str.split('\n')
  // ---------------------------------------------------------------------------

  /** Python's str.isspace for one character. */
  predicate IsSpace(c: char)
  {
    || ('\t' <= c <= '\r')
    || ('\U{001C}' <= c <= '\U{001F}')
    || c == ' ' || c == '\U{0085}' || c == '\U{00A0}' || c == '\U{1680}'
    || ('\U{2000}' <= c <= '\U{200A}')
    || c == '\U{2028}' || c == '\U{2029}' || c == '\U{202F}' || c == '\U{205F}' || c == '\U{3000}'
  }

  /** How many whitespace characters `s` starts with. */
  function LeadingSpace(s: string): (n: nat)
    ensures n <= |s|
    ensures forall k :: 0 <= k < n ==> IsSpace(s[k])
    ensures n < |s| ==> !IsSpace(s[n])
    decreases |s|
  {
    if s != [] && IsSpace(s[0]) then 1 + LeadingSpace(s[1..]) else 0
  }

  /** How many whitespace characters `s` ends with. */
  function TrailingSpace(s: string): (n: nat)
    ensures n <= |s|
    ensures forall k :: |s| - n <= k < |s| ==> IsSpace(s[k])
    ensures n < |s| ==> !IsSpace(s[|s| - n - 1])
    decreases |s|
  {
    if s != [] && IsSpace(s[|s| - 1]) then 1 + TrailingSpace(s[..|s| - 1]) else 0
  }

  /**
   * str.strip(): the longest slice of `s` that neither starts nor ends with
   * whitespace; everything cut off is whitespace.
   */
  function Strip(s: string): (r: string)
    ensures exists a, b ::
      && 0 <= a <= b <= |s| && r == s[a..b]
      && (forall k :: 0 <= k < a ==> IsSpace(s[k]))
      && (forall k :: b <= k < |s| ==> IsSpace(s[k]))
    ensures r != [] ==> !IsSpace(r[0]) && !IsSpace(r[|r| - 1])
  {
    var a := LeadingSpace(s);
    var t := s[a..];
    var b := a + |t| - TrailingSpace(t);
    assert t[..|t| - TrailingSpace(t)] == s[a..b];
    s[a..b]
  }

  /** str.split(sep): the pieces between separators; always at least one. */
  function Split(s: string, sep: char): (parts: seq<string>)
    ensures |parts| >= 1
    ensures forall k :: 0 <= k < |parts| ==> sep !in parts[k]
    decreases |s|
  {
    if s == [] then [""]
    else
      var rest := Split(s[1..], sep);
      if s[0] == sep then [""] + rest
      else [[s[0]] + rest[0]] + rest[1..]
  }

  /** sep.join(parts), the inverse of Split. */
  function Join(parts: seq<string>, sep: char): string
    requires |parts| >= 1
    decreases |parts|
  {
    if |parts| == 1 then parts[0] else parts[0] + [sep] + Join(parts[1..], sep)
  }

  /** Splitting loses nothing: joining the pieces restores the text. */
  lemma {:induction false} JoinSplit(s: string, sep: char)
    ensures Join(Split(s, sep), sep) == s
    decreases |s|
  {
    if s != [] {
      var rest := Split(s[1..], sep);
      JoinSplit(s[1..], sep);
      if s[0] == sep {
        assert ([""] + rest)[1..] == rest;
      } else {
        var parts := [[s[0]] + rest[0]] + rest[1..];
        if |rest| == 1 {
          assert rest[0] == s[1..];
          assert [s[0]] + s[1..] == s;
          assert parts == [s];
        } else {
          assert parts[1..] == rest[1..];
          assert Join(rest, sep) == rest[0] + [sep] + Join(rest[1..], sep);
          assert s == [s[0]] + s[1..];
        }
      }
    }
  }

  /** Splitting a join of separator-free pieces gives the pieces back. */
  lemma {:induction false} SplitJoin(parts: seq<string>, sep: char)
    requires |parts| >= 1
    requires forall k :: 0 <= k < |parts| ==> sep !in parts[k]
    ensures Split(Join(parts, sep), sep) == parts
    decreases |parts|, |parts[0]|
  {
    var p := parts[0];
    if p == [] {
      if |parts| > 1 {
        SplitJoin(parts[1..], sep);
        var s := Join(parts, sep);
        assert s == [sep] + Join(parts[1..], sep);
        assert s[1..] == Join(parts[1..], sep);
        assert [""] + parts[1..] == parts;
      }
    } else {
      var tail := [p[1..]] + parts[1..];
      assert tail[1..] == parts[1..];
      forall k | 0 <= k < |tail| ensures sep !in tail[k] {
        if k == 0 { assert forall c :: c in p[1..] ==> c in p; } else { assert tail[k] == parts[k]; }
      }
      SplitJoin(tail, sep);
      var s := Join(parts, sep);
      if |parts| == 1 {
        assert s == p;
        assert s[1..] == Join(tail, sep);
      } else {
        assert s == p + [sep] + Join(parts[1..], sep);
        assert Join(tail, sep) == p[1..] + [sep] + Join(parts[1..], sep);
        assert s[1..] == Join(tail, sep);
      }
      assert s[0] == p[0] && p[0] != sep;
      assert [p[0]] + p[1..] == p;
      assert [[p[0]] + p[1..]] + parts[1..] == parts;
    }
  }

  /** The lines of a file as app.py reads them: content.strip().split('\n'). */
  function Lines(content: string): (lines: seq<string>)
    ensures |lines| >= 1
  {
    Split(Strip(content), '\n')
  }

  // ---------------------------------------------------------------------------
  // Structure preview (get_file_preview)
  // ---------------------------------------------------------------------------

  /** One preview tag: '_' is an open cell, every other character is blocked. */
  function TagOf(c: char): CellKind
  {
    if c == '_' then Cell else Blocked
  }

  function PreviewRow(line: string): (row: seq<CellKind>)
    ensures |row| == |line|
  {
    seq(|line|, k requires 0 <= k < |line| => TagOf(line[k]))
  }

  function PreviewRows(lines: seq<string>): (rows: seq<seq<CellKind>>)
    ensures |rows| == |lines|
  {
    seq(|lines|, r requires 0 <= r < |lines| => PreviewRow(lines[r]))
  }

  /**
   * The nested loops of get_file_preview that build the structure preview:
   * one row per line, one tag per character.
   */
  method ParseStructurePreview(content: string) returns (preview: seq<seq<CellKind>>)
    ensures preview == PreviewRows(Lines(content))
  {
    var lines := Lines(content);
    preview := [];
    var r := 0;
    while r < |lines|
      invariant 0 <= r <= |lines|
      invariant preview == PreviewRows(lines[..r])
    {
      var line := lines[r];
      var row: seq<CellKind> := [];
      var c := 0;
      while c < |line|
        invariant 0 <= c <= |line|
        invariant row == PreviewRow(line[..c])
      {
        if line[c] == '_' {
          row := row + [Cell];
        } else {
          row := row + [Blocked];
        }
        c := c + 1;
      }
      assert line[..c] == line;
      preview := preview + [row];
      assert lines[..r + 1] == lines[..r] + [line];
      r := r + 1;
    }
    assert lines[..r] == lines;
  }

  function CountChar(s: string, c: char): nat
    decreases |s|
  {
    if s == [] then 0 else (if s[0] == c then 1 else 0) + CountChar(s[1..], c)
  }

  function CountCells(row: seq<CellKind>): nat
    decreases |row|
  {
    if row == [] then 0 else (if row[0] == Cell then 1 else 0) + CountCells(row[1..])
  }

  function TotalCells(rows: seq<seq<CellKind>>): nat
    decreases |rows|
  {
    if rows == [] then 0 else CountCells(rows[0]) + TotalCells(rows[1..])
  }

  function TotalChar(parts: seq<string>, c: char): nat
    decreases |parts|
  {
    if parts == [] then 0 else CountChar(parts[0], c) + TotalChar(parts[1..], c)
  }

  lemma {:induction false} RowCells(line: string)
    ensures CountCells(PreviewRow(line)) == CountChar(line, '_')
    decreases |line|
  {
    if line != [] {
      RowCells(line[1..]);
      assert PreviewRow(line)[1..] == PreviewRow(line[1..]);
    }
  }

  lemma {:induction false} SplitKeepsOthers(s: string, sep: char, c: char)
    requires c != sep
    ensures TotalChar(Split(s, sep), c) == CountChar(s, c)
    decreases |s|
  {
    if s != [] {
      SplitKeepsOthers(s[1..], sep, c);
      var rest := Split(s[1..], sep);
      if s[0] == sep {
        assert ([""] + rest)[1..] == rest;
      } else {
        var parts := [[s[0]] + rest[0]] + rest[1..];
        assert parts[1..] == rest[1..];
        assert ([s[0]] + rest[0])[1..] == rest[0];
      }
    }
  }

  lemma {:induction false} SplitCountsSeparators(s: string, sep: char)
    ensures |Split(s, sep)| == CountChar(s, sep) + 1
    decreases |s|
  {
    if s != [] {
      SplitCountsSeparators(s[1..], sep);
    }
  }

  lemma {:induction false} PreviewCells(lines: seq<string>)
    ensures TotalCells(PreviewRows(lines)) == TotalChar(lines, '_')
    decreases |lines|
  {
    if lines != [] {
      RowCells(lines[0]);
      PreviewCells(lines[1..]);
      assert PreviewRows(lines)[1..] == PreviewRows(lines[1..]);
    }
  }

  /**
   * The structure preview has one row per line of the stripped file (one more
   * than its line breaks), each as long as its line, and exactly as many open
   * cells as the stripped file has underscores.
   */
  lemma StructurePreviewCounts(content: string)
    ensures var rows := PreviewRows(Lines(content));
      && |rows| == CountChar(Strip(content), '\n') + 1
      && (forall r :: 0 <= r < |rows| ==> |rows[r]| == |Lines(content)[r]|)
      && TotalCells(rows) == CountChar(Strip(content), '_')
  {
    SplitCountsSeparators(Strip(content), '\n');
    PreviewCells(Lines(content));
    SplitKeepsOthers(Strip(content), '\n', '_');
  }

  // ---------------------------------------------------------------------------
  // /get-file-preview
  // ---------------------------------------------------------------------------

  const NoFilenameMessage: string := "No filename provided"
  const FileNotFoundMessage: string := "File not found"
  const StructureType: string := "structure"

  datatype PreviewReply =
    | PreviewFailed(error: string)
    | StructurePreview(preview: seq<seq<CellKind>>, raw: string)
    | WordsPreview(words: seq<string>, raw: string)

  /**
   * get_file_preview, with the data directory given as a map from file name to
   * content. Any type other than "structure" is treated as a word list.
   */
  method GetFilePreview(fileType: Option<string>, filename: Option<string>, files: map<string, string>)
    returns (reply: PreviewReply)
    ensures !Truthy(filename) ==> reply == PreviewFailed(NoFilenameMessage)
    ensures Truthy(filename) && filename.value !in files ==> reply == PreviewFailed(FileNotFoundMessage)
    ensures Truthy(filename) && filename.value in files && fileType == Some(StructureType) ==>
      reply == StructurePreview(PreviewRows(Lines(files[filename.value])), files[filename.value])
    ensures Truthy(filename) && filename.value in files && fileType != Some(StructureType) ==>
      reply == WordsPreview(Lines(files[filename.value]), files[filename.value])
  {
    if !Truthy(filename) {
      return PreviewFailed(NoFilenameMessage);
    }
    if filename.value !in files {
      return PreviewFailed(FileNotFoundMessage);
    }
    var content := files[filename.value];
    if fileType == Some(StructureType) {
      var preview := ParseStructurePreview(content);
      reply := StructurePreview(preview, content);
    } else {
      reply := WordsPreview(Lines(content), content);
    }
  }

  // ---------------------------------------------------------------------------
  // The index page's data-file lists
  // ---------------------------------------------------------------------------

  predicate StartsWith(s: string, prefix: string)
  {
    |prefix| <= |s| && s[..|prefix|] == prefix
  }

  predicate EndsWith(s: string, suffix: string)
  {
    |suffix| <= |s| && s[|s| - |suffix|..] == suffix
  }

  predicate IsStructureFile(f: string)
  {
    StartsWith(f, "structure") && EndsWith(f, ".txt")
  }

  /** The `elif`: a word list is only what is not already a structure file. */
  predicate IsWordsFile(f: string)
  {
    !IsStructureFile(f) && StartsWith(f, "words") && EndsWith(f, ".txt")
  }

  /** Python's string order: by code point, a proper prefix first. */
  predicate LexLe(a: string, b: string)
    decreases |a|
  {
    a == [] || (b != [] && (a[0] < b[0] || (a[0] == b[0] && LexLe(a[1..], b[1..]))))
  }

  lemma {:induction false} LexLeTotal(a: string, b: string)
    ensures LexLe(a, b) || LexLe(b, a)
    decreases |a|
  {
    if a != [] && b != [] && a[0] == b[0] {
      LexLeTotal(a[1..], b[1..]);
    }
  }

  lemma {:induction false} LexLeTrans(a: string, b: string, c: string)
    requires LexLe(a, b) && LexLe(b, c)
    ensures LexLe(a, c)
    decreases |a|
  {
    if a != [] && a[0] == b[0] && b[0] == c[0] {
      LexLeTrans(a[1..], b[1..], c[1..]);
    }
  }

  predicate Sorted(s: seq<string>)
  {
    forall i, j :: 0 <= i < j < |s| ==> LexLe(s[i], s[j])
  }

  function Insert(x: string, s: seq<string>): (r: seq<string>)
    decreases |s|
  {
    if s == [] then [x]
    else if LexLe(x, s[0]) then [x] + s
    else [s[0]] + Insert(x, s[1..])
  }

  lemma {:induction false} InsertPermutes(x: string, s: seq<string>)
    ensures multiset(Insert(x, s)) == multiset(s) + multiset{x}
    decreases |s|
  {
    if s != [] && !LexLe(x, s[0]) {
      InsertPermutes(x, s[1..]);
      assert s == [s[0]] + s[1..];
    }
  }

  /** Every element of `s` is at least `y`. */
  predicate AllAtLeast(y: string, s: seq<string>)
  {
    forall j :: 0 <= j < |s| ==> LexLe(y, s[j])
  }

  lemma {:induction false} InsertAtLeast(y: string, x: string, s: seq<string>)
    requires AllAtLeast(y, s) && LexLe(y, x)
    ensures AllAtLeast(y, Insert(x, s))
    decreases |s|
  {
    if s != [] && !LexLe(x, s[0]) {
      InsertAtLeast(y, x, s[1..]);
      var it := Insert(x, s[1..]);
      assert forall j :: 0 < j < |[s[0]] + it| ==> ([s[0]] + it)[j] == it[j - 1];
    } else if s != [] {
      assert forall j :: 0 < j < |[x] + s| ==> ([x] + s)[j] == s[j - 1];
    }
  }

  lemma {:induction false} SortedCons(y: string, s: seq<string>)
    requires Sorted(s) && AllAtLeast(y, s)
    ensures Sorted([y] + s)
  {
    var r := [y] + s;
    forall i, j | 0 <= i < j < |r| ensures LexLe(r[i], r[j]) {
      assert r[j] == s[j - 1];
      if i > 0 { assert r[i] == s[i - 1]; }
    }
  }

  lemma {:induction false} InsertSorted(x: string, s: seq<string>)
    requires Sorted(s)
    ensures Sorted(Insert(x, s))
    decreases |s|
  {
    if s == [] {
    } else if LexLe(x, s[0]) {
      forall j | 0 <= j < |s| ensures LexLe(x, s[j]) {
        if j > 0 { LexLeTrans(x, s[0], s[j]); }
      }
      SortedCons(x, s);
    } else {
      LexLeTotal(x, s[0]);
      var tail := s[1..];
      assert AllAtLeast(s[0], tail) by {
        forall j | 0 <= j < |tail| ensures LexLe(s[0], tail[j]) { assert tail[j] == s[j + 1]; }
      }
      InsertSorted(x, tail);
      InsertAtLeast(s[0], x, tail);
      SortedCons(s[0], Insert(x, tail));
    }
  }

  /** list.sort() for strings, built by insertion. */
  function SortStrings(xs: seq<string>): seq<string>
    decreases |xs|
  {
    if xs == [] then [] else Insert(xs[0], SortStrings(xs[1..]))
  }

  /** The sorted list is in order and a permutation of the list. */
  lemma {:induction false} SortStringsSorts(xs: seq<string>)
    ensures Sorted(SortStrings(xs))
    ensures multiset(SortStrings(xs)) == multiset(xs)
    decreases |xs|
  {
    if xs != [] {
      var rest := SortStrings(xs[1..]);
      SortStringsSorts(xs[1..]);
      InsertSorted(xs[0], rest);
      InsertPermutes(xs[0], rest);
      assert multiset(xs) == multiset(xs[1..]) + multiset{xs[0]} by {
        assert xs == [xs[0]] + xs[1..];
      }
    }
  }

  /** The files of `listing` a predicate keeps, in listing order. */
  function Structures(listing: seq<string>): seq<string>
    decreases |listing|
  {
    if listing == [] then []
    else
      var init := listing[..|listing| - 1];
      var f := listing[|listing| - 1];
      Structures(init) + (if IsStructureFile(f) then [f] else [])
  }

  function WordLists(listing: seq<string>): seq<string>
    decreases |listing|
  {
    if listing == [] then []
    else
      var init := listing[..|listing| - 1];
      var f := listing[|listing| - 1];
      WordLists(init) + (if IsWordsFile(f) then [f] else [])
  }

  lemma {:induction false} FilterMembers(listing: seq<string>)
    ensures forall f :: f in Structures(listing) <==> f in listing && IsStructureFile(f)
    ensures forall f :: f in WordLists(listing) <==> f in listing && IsWordsFile(f)
    decreases |listing|
  {
    if listing != [] {
      var init := listing[..|listing| - 1];
      FilterMembers(init);
      assert listing == init + [listing[|listing| - 1]];
    }
  }

  /**
   * The index page's lists: the listing's structure files and word-list files
   * (None when the data directory does not exist), each sorted.
   */
  method IndexFiles(listing: Option<seq<string>>) returns (structures: seq<string>, words: seq<string>)
    ensures Sorted(structures) && Sorted(words)
    ensures listing.None? ==> structures == [] && words == []
    ensures listing.Some? ==>
      && multiset(structures) == multiset(Structures(listing.value))
      && multiset(words) == multiset(WordLists(listing.value))
  {
    structures := [];
    words := [];
    if listing.Some? {
      var files := listing.value;
      var k := 0;
      while k < |files|
        invariant 0 <= k <= |files|
        invariant structures == Structures(files[..k])
        invariant words == WordLists(files[..k])
      {
        var f := files[k];
        assert files[..k + 1][..k] == files[..k];
        if StartsWith(f, "structure") && EndsWith(f, ".txt") {
          structures := structures + [f];
        } else if StartsWith(f, "words") && EndsWith(f, ".txt") {
          words := words + [f];
        }
        k := k + 1;
      }
      assert files[..k] == files;
    }
    SortStringsSorts(structures);
    SortStringsSorts(words);
    structures := SortStrings(structures);
    words := SortStrings(words);
  }

  /**
   * A file is listed as a structure iff it starts with "structure" and ends
   * with ".txt", as a word list iff it is not a structure and starts with
   * "words" and ends with ".txt"; no file is in both lists.
   */
  lemma IndexPartition(listing: seq<string>, structures: seq<string>, words: seq<string>)
    requires multiset(structures) == multiset(Structures(listing))
    requires multiset(words) == multiset(WordLists(listing))
    ensures forall f :: f in structures <==> f in listing && StartsWith(f, "structure") && EndsWith(f, ".txt")
    ensures forall f :: f in words <==> f in listing && !IsStructureFile(f) && StartsWith(f, "words") && EndsWith(f, ".txt")
    ensures forall f :: !(f in structures && f in words)
  {
    FilterMembers(listing);
    forall f ensures f in structures <==> f in Structures(listing) {
      assert f in structures <==> f in multiset(structures);
      assert f in Structures(listing) <==> f in multiset(Structures(listing));
    }
    forall f ensures f in words <==> f in WordLists(listing) {
      assert f in words <==> f in multiset(words);
      assert f in WordLists(listing) <==> f in multiset(WordLists(listing));
    }
  }
}
