/** The file-name heuristic of the chord-chart service: a Drive file name such
    as "Amazing_Grace-John_Newton-Gm.pdf" yields the song name, the artist and
    the musical key. The three extractors are total: a name without the
    expected structure yields documented defaults, never an error. */
module FileNameMetadata {

  import opened Base

  /** The artist shown when the name has no usable second segment ("unknown artist"). */
  const UnknownArtist: string := "未知藝人"

  /** The key shown when the name holds no key token. */
  const DefaultKey: string := "C"

  // ---------------------------------------------------------------------------
  // The `.pdf` extension

  /** `name` ends in ".pdf", letters in any case. */
  predicate HasPdfExtension(name: string) {
    && |name| >= 4
    && name[|name| - 4] == '.'
    && (name[|name| - 3] == 'p' || name[|name| - 3] == 'P')
    && (name[|name| - 2] == 'd' || name[|name| - 2] == 'D')
    && (name[|name| - 1] == 'f' || name[|name| - 1] == 'F')
  }

  /** `name` with one trailing ".pdf" (any case) removed. */
  function WithoutPdfExtension(name: string): (base: string)
    ensures base <= name
    ensures base == name <==> !HasPdfExtension(name)
    ensures base != name ==> |name| - |base| == 4
  {
    if HasPdfExtension(name) then name[..|name| - 4] else name
  }

  // ---------------------------------------------------------------------------
  // Splitting on a separator, with the semantics of `String.prototype.split`
  // for a one-character separator: always at least one part, empty parts kept.

  /** The parts joined back together with `sep` between neighbours. */
  function Join(parts: seq<string>, sep: char): string
    requires |parts| >= 1
  {
    if |parts| == 1 then parts[0] else parts[0] + [sep] + Join(parts[1..], sep)
  }

  function Split(s: string, sep: char): (parts: seq<string>)
    ensures |parts| >= 1
    ensures forall i :: 0 <= i < |parts| ==> sep !in parts[i]
    ensures Join(parts, sep) == s
  {
    if s == [] then [""]
    else
      var rest := Split(s[1..], sep);
      if s[0] == sep then
        assert ([""] + rest)[1..] == rest;
        [""] + rest
      else
        var parts := [[s[0]] + rest[0]] + rest[1..];
        assert parts[1..] == rest[1..];
        assert s == [s[0]] + s[1..];
        parts
  }

  /** A string without the separator is a single part. */
  lemma {:induction false} SplitWithoutSeparator(s: string, sep: char)
    requires sep !in s
    ensures Split(s, sep) == [s]
  {
    if s != [] {
      SplitWithoutSeparator(s[1..], sep);
      assert s == [s[0]] + s[1..];
    }
  }

  /** The first separator ends the first part. */
  lemma {:induction false} SplitAtFirstSeparator(a: string, sep: char, b: string)
    requires sep !in a
    ensures Split(a + [sep] + b, sep) == [a] + Split(b, sep)
  {
    var s := a + [sep] + b;
    if a == [] {
      assert s[1..] == b;
    } else {
      assert s[1..] == a[1..] + [sep] + b;
      SplitAtFirstSeparator(a[1..], sep, b);
      assert [a[0]] + a[1..] == a;
    }
  }

  /** Splitting undoes joining parts that do not contain the separator. */
  lemma {:induction false} SplitJoin(parts: seq<string>, sep: char)
    requires |parts| >= 1
    requires forall i :: 0 <= i < |parts| ==> sep !in parts[i]
    ensures Split(Join(parts, sep), sep) == parts
  {
    if |parts| == 1 {
      SplitWithoutSeparator(parts[0], sep);
    } else {
      SplitJoin(parts[1..], sep);
      SplitAtFirstSeparator(parts[0], sep, Join(parts[1..], sep));
      assert [parts[0]] + parts[1..] == parts;
    }
  }

  // ---------------------------------------------------------------------------
  // Underscores

  /** Every `_` replaced by a space (the global replacement `/_/g`). */
  function UnderscoresToSpaces(s: string): (r: string)
    ensures |r| == |s|
    ensures forall i :: 0 <= i < |s| ==> r[i] == (if s[i] == '_' then ' ' else s[i])
  {
    seq(|s|, i requires 0 <= i < |s| => if s[i] == '_' then ' ' else s[i])
  }

  lemma UnderscoresAllReplaced(s: string)
    ensures '_' !in UnderscoresToSpaces(s)
    ensures '_' !in s ==> UnderscoresToSpaces(s) == s
  {
    var r := UnderscoresToSpaces(s);
    forall i | 0 <= i < |r| ensures r[i] != '_' {}
  }

  // ---------------------------------------------------------------------------
  // Song name and artist

  /** The first hyphen-separated segment of the extensionless name with
      underscores as spaces; when that segment is empty, the extensionless
      name itself, underscores kept. */
  function SongName(fileName: string): (song: string)
    ensures song == "" <==> WithoutPdfExtension(fileName) == ""
  {
    var base := WithoutPdfExtension(fileName);
    var first := UnderscoresToSpaces(Split(base, '-')[0]);
    if first != "" then first else base
  }

  /** The second hyphen-separated segment with underscores as spaces, or the
      unknown-artist placeholder when there is none or it is empty. */
  function Artist(fileName: string): (artist: string)
    ensures artist != ""
  {
    var parts := Split(WithoutPdfExtension(fileName), '-');
    if |parts| >= 2 && UnderscoresToSpaces(parts[1]) != "" then UnderscoresToSpaces(parts[1])
    else UnknownArtist
  }

  /** When the extensionless name starts with a hyphen (empty first segment),
      the song name is that name unchanged: hyphen and underscores kept. */
  lemma SongNameFallback(fileName: string)
    requires WithoutPdfExtension(fileName) != ""
    requires WithoutPdfExtension(fileName)[0] == '-'
    ensures SongName(fileName) == WithoutPdfExtension(fileName)
  {
    var base := WithoutPdfExtension(fileName);
    assert base == [] + ['-'] + base[1..];
    SplitAtFirstSeparator([], '-', base[1..]);
  }

  /** The song name is read off the first segment of the extensionless name,
      whatever follows it: underscores become spaces, and an empty first
      segment gives the extensionless name unchanged. */
  lemma SongNameOfFirstSegment(fileName: string, first: string, rest: string)
    requires '-' !in first
    requires WithoutPdfExtension(fileName) == first
             || WithoutPdfExtension(fileName) == first + "-" + rest
    ensures SongName(fileName)
            == if first != "" then UnderscoresToSpaces(first) else WithoutPdfExtension(fileName)
  {
    var base := WithoutPdfExtension(fileName);
    if base == first {
      SplitWithoutSeparator(first, '-');
    } else {
      assert base == first + ['-'] + rest;
      SplitAtFirstSeparator(first, '-', rest);
    }
  }

  /** The artist is read off the second segment, whatever follows it, and is
      the placeholder when that segment is empty. */
  lemma ArtistOfSecondSegment(fileName: string, first: string, second: string, rest: string)
    requires '-' !in first && '-' !in second
    requires WithoutPdfExtension(fileName) == first + "-" + second
             || WithoutPdfExtension(fileName) == first + "-" + second + "-" + rest
    ensures Artist(fileName) == if second != "" then UnderscoresToSpaces(second) else UnknownArtist
  {
    var base := WithoutPdfExtension(fileName);
    if base == first + "-" + second {
      SplitWithoutSeparator(second, '-');
      assert base == first + ['-'] + second;
      SplitAtFirstSeparator(first, '-', second);
    } else {
      SplitAtFirstSeparator(second, '-', rest);
      assert second + "-" + rest == second + ['-'] + rest;
      assert base == first + ['-'] + (second + "-" + rest);
      SplitAtFirstSeparator(first, '-', second + "-" + rest);
    }
  }

  // ---------------------------------------------------------------------------
  // Key: the regular expression /-([A-G][#b]?m?)(?:-|\.)/i as a scanner

  predicate IsKeyLetter(c: char) {
    'A' <= c <= 'G' || 'a' <= c <= 'g'
  }

  predicate IsAccidental(c: char) {
    c == '#' || c == 'b' || c == 'B'
  }

  predicate IsMinor(c: char) {
    c == 'm' || c == 'M'
  }

  predicate IsKeyEnd(c: char) {
    c == '-' || c == '.'
  }

  /** A key as written: letter A-G, optional sharp or flat, optional minor mark,
      all case-insensitive. */
  predicate IsKeyToken(t: string) {
    && 1 <= |t| <= 3
    && IsKeyLetter(t[0])
    && (|t| == 2 ==> IsAccidental(t[1]) || IsMinor(t[1]))
    && (|t| == 3 ==> IsAccidental(t[1]) && IsMinor(t[2]))
  }

  /** The name holds, at index i, a hyphen followed by a key token of length n
      that is immediately followed by a hyphen or a dot. */
  predicate KeyAt(s: string, i: int, n: int) {
    && 0 <= i
    && 1 <= n
    && i + n + 1 < |s|
    && s[i] == '-'
    && IsKeyToken(s[i + 1..i + 1 + n])
    && IsKeyEnd(s[i + 1 + n])
  }

  /** The pattern tried at index i, its alternatives in the order backtracking
      tries them (sharp/flat and minor both taken, then only the first, then
      only the second, then neither); the length of the captured key. */
  function MatchAt(s: string, i: nat): (n: Option<nat>)
    ensures n.Some? ==> KeyAt(s, i, n.value)
    ensures forall m :: KeyAt(s, i, m) ==> n == Some(m)
  {
    if i + 2 < |s| && s[i] == '-' && IsKeyLetter(s[i + 1]) then
      if i + 4 < |s| && IsAccidental(s[i + 2]) && IsMinor(s[i + 3]) && IsKeyEnd(s[i + 4]) then Some(3)
      else if i + 3 < |s| && IsAccidental(s[i + 2]) && IsKeyEnd(s[i + 3]) then Some(2)
      else if i + 3 < |s| && IsMinor(s[i + 2]) && IsKeyEnd(s[i + 3]) then Some(2)
      else if IsKeyEnd(s[i + 2]) then Some(1)
      else None
    else None
  }

  /** The first index at or after `from` where the pattern matches. */
  function LeftmostKey(s: string, from: nat): (p: Option<nat>)
    ensures p.Some? ==> from <= p.value && MatchAt(s, p.value).Some?
    ensures p.Some? ==> forall j: nat :: from <= j < p.value ==> MatchAt(s, j).None?
    ensures p.None? ==> forall j: nat :: from <= j ==> MatchAt(s, j).None?
    decreases |s| - from
  {
    if from >= |s| then None
    else if MatchAt(s, from).Some? then Some(from)
    else LeftmostKey(s, from + 1)
  }

  /** The key captured by the leftmost match in the whole file name (extension
      included), or the default key. */
  function Key(fileName: string): (key: string)
    ensures IsKeyToken(key)
  {
    match LeftmostKey(fileName, 0)
    case Some(p) => fileName[p + 1..p + 1 + MatchAt(fileName, p).value]
    case None => DefaultKey
  }

  /** The key is the token of the leftmost hyphen-key-boundary occurrence, and
      the default key when there is none. */
  lemma KeyIsLeftmostToken(f: string)
    ensures (forall i, n :: !KeyAt(f, i, n)) ==> Key(f) == DefaultKey
    ensures forall i, n :: KeyAt(f, i, n) && (forall j, m :: KeyAt(f, j, m) ==> i <= j) ==>
              Key(f) == f[i + 1..i + 1 + n]
  {
    match LeftmostKey(f, 0)
    case None =>
      forall i, n | 0 <= i ensures !KeyAt(f, i, n) {
        assert MatchAt(f, i).None?;
      }
    case Some(p) =>
      var n := MatchAt(f, p).value;
      forall i, m | KeyAt(f, i, m) && (forall j, m' :: KeyAt(f, j, m') ==> i <= j)
        ensures Key(f) == f[i + 1..i + 1 + m]
      {
        assert MatchAt(f, i) == Some(m);
        assert i <= p;
        assert KeyAt(f, p, n);
      }
  }

  // ---------------------------------------------------------------------------
  // Properties of the heuristic as a whole

  /** "<song>-<artist>-<key>" splits into its three segments. */
  lemma ThreeSegments(song: string, artist: string, key: string)
    requires '-' !in song && '-' !in artist && '-' !in key
    ensures Split(song + "-" + artist + "-" + key, '-') == [song, artist, key]
  {
    SplitWithoutSeparator(key, '-');
    SplitAtFirstSeparator(artist, '-', key);
    assert artist + "-" + key == artist + ['-'] + key;
    SplitAtFirstSeparator(song, '-', artist + "-" + key);
    assert song + "-" + artist + "-" + key == song + ['-'] + (artist + "-" + key);
  }

  /** In "<song>-<artist>-<key>.pdf" the key token after the second hyphen is
      the one found, when the artist segment cannot be read as a key. */
  lemma {:induction false} KeyOfStructuredName(song: string, artist: string, key: string)
    requires '-' !in song
    requires '-' !in artist && '.' !in artist && !IsKeyToken(artist)
    requires IsKeyToken(key)
    ensures Key(song + "-" + artist + "-" + key + ".pdf") == key
  {
    var f := song + "-" + artist + "-" + key + ".pdf";
    var q := |song| + 1 + |artist|;
    assert f[q + 1..q + 1 + |key|] == key;
    assert KeyAt(f, q, |key|);
    forall j, m ensures KeyAt(f, j, m) ==> q <= j {
      if 0 <= j < |song| {
        assert f[j] == song[j];
      } else if |song| < j < q {
        assert f[j] == artist[j - |song| - 1];
      } else if j == |song| {
        KeyNotAfterFirstHyphen(song, artist, key, m);
      }
    }
    KeyIsLeftmostToken(f);
  }

  /** In "<song>-<artist>-<key>.pdf", no key match starts at the first hyphen
      when the artist segment is neither a key token nor contains a dot. */
  lemma KeyNotAfterFirstHyphen(song: string, artist: string, key: string, m: int)
    requires '-' !in artist && '.' !in artist && !IsKeyToken(artist)
    ensures !KeyAt(song + "-" + artist + "-" + key + ".pdf", |song|, m)
  {
    var f := song + "-" + artist + "-" + key + ".pdf";
    var j := |song|;
    if 1 <= m < |artist| {
      assert f[j + 1 + m] == artist[m];
    } else if m == |artist| {
      assert f[j + 1..j + 1 + m] == artist;
    } else if m > |artist| && j + 1 + m <= |f| {
      assert f[j + 1..j + 1 + m][|artist|] == '-';
    }
  }

  /** A name of the documented shape "<song>-<artist>-<key>.pdf" yields its
      three parts, provided the artist segment cannot itself be read as a key
      (it is not a key token and has no dot). */
  lemma StructuredName(song: string, artist: string, key: string)
    requires song != "" && '-' !in song
    requires '-' !in artist && '.' !in artist && !IsKeyToken(artist)
    requires IsKeyToken(key)
    ensures var f := song + "-" + artist + "-" + key + ".pdf";
            && SongName(f) == UnderscoresToSpaces(song)
            && Artist(f) == (if artist == "" then UnknownArtist else UnderscoresToSpaces(artist))
            && Key(f) == key
  {
    var base := song + "-" + artist + "-" + key;
    assert WithoutPdfExtension(base + ".pdf") == base;
    assert '-' !in key;
    ThreeSegments(song, artist, key);
    KeyOfStructuredName(song, artist, key);
  }

  /** A name without hyphens has no artist and no key. */
  lemma NoHyphens(f: string)
    requires '-' !in f
    ensures SongName(f) == UnderscoresToSpaces(WithoutPdfExtension(f))
    ensures Artist(f) == UnknownArtist
    ensures Key(f) == DefaultKey
  {
    var base := WithoutPdfExtension(f);
    forall i | 0 <= i < |base| ensures base[i] != '-' {
      assert base[i] == f[i];
    }
    SplitWithoutSeparator(base, '-');
    forall i, n | 0 <= i < |f| ensures !KeyAt(f, i, n) {
      assert f[i] != '-';
    }
    KeyIsLeftmostToken(f);
  }

  /** "Amazing_Grace-John_Newton-Gm.pdf", written as the concatenation of its
      segments. */
  lemma AmazingGraceExample()
    ensures var f := "Amazing_Grace" + "-" + "John_Newton" + "-" + "Gm" + ".pdf";
            SongName(f) == "Amazing Grace" && Artist(f) == "John Newton" && Key(f) == "Gm"
  {
    assert UnderscoresToSpaces("Amazing_Grace") == "Amazing Grace";
    assert UnderscoresToSpaces("John_Newton") == "John Newton";
    StructuredName("Amazing_Grace", "John_Newton", "Gm");
  }

  lemma WorshipSongExample()
    ensures SongName("worship_song.pdf") == "worship song"
    ensures Artist("worship_song.pdf") == UnknownArtist
    ensures Key("worship_song.pdf") == DefaultKey
  {
    assert WithoutPdfExtension("worship_song.pdf") == "worship_song";
    assert UnderscoresToSpaces("worship_song") == "worship song";
    NoHyphens("worship_song.pdf");
  }

  /** An artist segment that reads as a key is taken for the key: in
      "S-Am-G.pdf" both the artist and the key are "Am". */
  lemma ArtistReadAsKey()
    ensures var f := "S" + "-" + "Am" + "-" + "G" + ".pdf";
            Artist(f) == "Am" && Key(f) == "Am"
  {
    var f := "S" + "-" + "Am" + "-" + "G" + ".pdf";
    assert WithoutPdfExtension(f) == "S" + "-" + "Am" + "-" + "G";
    ArtistOfSecondSegment(f, "S", "Am", "G");
    assert UnderscoresToSpaces("Am") == "Am";
    assert f[2..4] == "Am";
    assert KeyAt(f, 1, 2);
    forall j, m | KeyAt(f, j, m) ensures 1 <= j {
      assert f[0] != '-';
    }
    KeyIsLeftmostToken(f);
  }

  /** A key token at the very end of a name, with no dot or hyphen after it,
      does not match at the hyphen before it: the pattern needs one more
      character, and no character of a key token is a hyphen or a dot. */
  lemma KeyAtEndNotMatched(s: string, t: string)
    requires IsKeyToken(t)
    ensures forall n :: !KeyAt(s + "-" + t, |s|, n)
  {
    var f := s + "-" + t;
    forall n ensures !KeyAt(f, |s|, n) {
      if 1 <= n && |s| + n + 1 < |f| {
        assert f[|s| + 1 + n] == t[n];
      }
    }
  }

  /** "Hymn-Choir-G": the key at the end is not found, and the default key is
      used. */
  lemma KeyAtEndNotFound()
    ensures Key("Hymn-Choir-G") == DefaultKey
  {
    var f := "Hymn-Choir-G";
    forall i, n ensures !KeyAt(f, i, n) {
      if 0 <= i < |f| && i != 4 && i != 10 {
        assert f[i] != '-';
      }
    }
    KeyIsLeftmostToken(f);
  }
}
