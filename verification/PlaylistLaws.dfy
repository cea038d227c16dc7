/** Laws of the playlist text: what each written line tells, and which lines name which file. */
module PlaylistLaws {
  import opened Common
  import opened Sequences
  import opened PlaylistText

  // ----- numbers --------------------------------------------------------------------------------------------

  ghost predicate AllDigits(s: string) {
    forall i :: 0 <= i < |s| ==> '0' <= s[i] <= '9'
  }

  /** The number that decimal digits stand for. */
  function ValueOf(s: string): int {
    if s == "" then 0 else ValueOf(s[..|s| - 1]) * 10 + (s[|s| - 1] as int - '0' as int)
  }

  /** A decimal numeral for n, without leading zeros. */
  ghost predicate Numeral(s: string, n: nat) {
    s != "" && AllDigits(s) && ValueOf(s) == n && (|s| > 1 ==> s[0] != '0')
  }

  /** ... with a sign if n is negative. */
  ghost predicate SignedNumeral(s: string, n: int) {
    if n < 0 then s != "" && s[0] == '-' && Numeral(s[1..], -n) else Numeral(s, n)
  }

  lemma {:induction false} DigitsAreNumeral(n: nat)
    ensures Numeral(Digits(n), n) && (n > 0 ==> Digits(n)[0] != '0')
  {
    if n >= 10 {
      DigitsAreNumeral(n / 10);
      assert Digits(n)[..|Digits(n)| - 1] == Digits(n / 10);
    }
  }

  lemma DecimalIsNumeral(n: int)
    ensures SignedNumeral(Decimal(n), n)
  {
    DigitsAreNumeral(if n < 0 then -n else n);
    assert n < 0 ==> Decimal(n)[1..] == Digits(-n);
  }

  // ----- what the written lines tell ------------------------------------------------------------------------

  /** Who is playing: the artist, if there is one, before the title, or the path of a track without a title. */
  ghost predicate Who(text: string, t: Track) {
    var shown := if t.title == "" then t.path else t.title;
    if t.artist == "" then text == shown
    else t.artist <= text && text[|t.artist|..] == " - " + shown
  }

  ghost predicate TellsInfo(line: string, t: Track) {
    exists n, who :: line == "#EXTINF:" + n + "," + who && SignedNumeral(n, t.seconds) && Who(who, t)
  }

  ghost predicate TellsKey(line: string, key: string, i: nat, value: string) {
    exists n :: line == key + n + "=" + value && Numeral(n, i)
  }

  ghost predicate TellsTitle(line: string, i: nat, t: Track) {
    exists who :: TellsKey(line, "Title", i, who) && Who(who, t)
  }

  ghost predicate TellsLength(line: string, i: nat, t: Track) {
    exists n :: TellsKey(line, "Length", i, n) && SignedNumeral(n, t.seconds)
  }

  lemma LabelTells(t: Track)
    ensures Who(Label(t), t)
  {
  }

  lemma InfoTells(t: Track)
    ensures TellsInfo(InfoLine(t), t)
  {
    DecimalIsNumeral(t.seconds);
    LabelTells(t);
  }

  /** Line 0 is the header, lines 2k+1 and 2k+2 belong to track k. */
  ghost predicate TellsM3u(lines: seq<string>, tracks: seq<Track>) {
    && |lines| == 2 * |tracks| + 1 && lines[0] == "#EXTM3U"
    && forall k: nat :: k < |tracks| ==> TellsM3uTrack(lines, k, tracks[k])
  }

  ghost predicate TellsM3uTrack(lines: seq<string>, k: nat, t: Track) {
    2 * k + 2 < |lines| && TellsInfo(lines[2 * k + 1], t) && lines[2 * k + 2] == t.path
  }

  lemma M3uTrackMore(lines: seq<string>, tracks: seq<Track>, info: string)
    requires tracks != [] && TellsM3u(lines, tracks[..|tracks| - 1]) && TellsInfo(info, tracks[|tracks| - 1])
    ensures TellsM3u(lines + [info, tracks[|tracks| - 1].path], tracks)
  {
    var n := |tracks| - 1;
    var more := lines + [info, tracks[n].path];
    forall k: nat | k < |tracks|
      ensures TellsM3uTrack(more, k, tracks[k])
    {
      if k < n {
        assert TellsM3uTrack(lines, k, tracks[..n][k]);
      }
    }
  }

  lemma {:induction false} M3uLinesTell(tracks: seq<Track>)
    ensures TellsM3u(M3uLines(tracks), tracks)
  {
    if tracks != [] {
      var n := |tracks| - 1;
      M3uLinesTell(tracks[..n]);
      InfoTells(tracks[n]);
      M3uTrackMore(M3uLines(tracks[..n]), tracks, InfoLine(tracks[n]));
    }
  }

  /** Line 0 is the header, lines 3k+1 to 3k+3 are about track k and number it from 1. */
  ghost predicate TellsPls(lines: seq<string>, tracks: seq<Track>) {
    && |lines| == 3 * |tracks| + 1 && lines[0] == "[playlist]"
    && forall k: nat :: k < |tracks| ==> TellsPlsTrack(lines, k, tracks[k])
  }

  ghost predicate TellsPlsTrack(lines: seq<string>, k: nat, t: Track) {
    && 3 * k + 3 < |lines| && TellsKey(lines[3 * k + 1], "File", k + 1, t.path)
    && TellsTitle(lines[3 * k + 2], k + 1, t) && TellsLength(lines[3 * k + 3], k + 1, t)
  }

  lemma PlsTrackMore(lines: seq<string>, tracks: seq<Track>, file: string, title: string, length: string)
    requires tracks != [] && TellsPls(lines, tracks[..|tracks| - 1])
    requires TellsKey(file, "File", |tracks|, tracks[|tracks| - 1].path)
    requires TellsTitle(title, |tracks|, tracks[|tracks| - 1]) && TellsLength(length, |tracks|, tracks[|tracks| - 1])
    ensures TellsPls(lines + [file, title, length], tracks)
  {
    var n := |tracks| - 1;
    var more := lines + [file, title, length];
    forall k: nat | k < |tracks|
      ensures TellsPlsTrack(more, k, tracks[k])
    {
      if k < n {
        assert TellsPlsTrack(lines, k, tracks[..n][k]);
      }
    }
  }

  lemma PlsTrackTells(t: Track, i: nat)
    ensures TellsKey(FileLine(t, i), "File", i, t.path) && TellsTitle(TitleLine(t, i), i, t)
    ensures TellsLength(LengthLine(t, i), i, t)
  {
    DigitsAreNumeral(i);
    DecimalIsNumeral(t.seconds);
    LabelTells(t);
    assert TellsKey(TitleLine(t, i), "Title", i, Label(t));
    assert TellsKey(LengthLine(t, i), "Length", i, Decimal(t.seconds));
  }

  lemma {:induction false} PlsEntryLinesTell(tracks: seq<Track>)
    ensures TellsPls(PlsEntryLines(tracks), tracks)
  {
    if tracks != [] {
      var n := |tracks| - 1;
      PlsEntryLinesTell(tracks[..n]);
      PlsTrackTells(tracks[n], n + 1);
      PlsTrackMore(PlsEntryLines(tracks[..n]), tracks, FileLine(tracks[n], n + 1), TitleLine(tracks[n], n + 1),
                   LengthLine(tracks[n], n + 1));
    }
  }

  ghost predicate TellsCount(line: string, n: nat) {
    exists c :: line == "NumberOfEntries=" + c && Numeral(c, n)
  }

  /** Two more lines give the count and a version. */
  ghost predicate TellsWholePls(lines: seq<string>, tracks: seq<Track>) {
    exists entries, count ::
      TellsPls(entries, tracks) && TellsCount(count, |tracks|) && lines == entries + [count, "Version=2"]
  }

  lemma EndTells(entries: seq<string>, tracks: seq<Track>, count: string)
    requires TellsPls(entries, tracks) && TellsCount(count, |tracks|)
    ensures TellsWholePls(entries + [count, "Version=2"], tracks)
  {
  }

  lemma PlsLinesTell(tracks: seq<Track>)
    ensures TellsWholePls(PlsLines(tracks), tracks)
  {
    PlsEntryLinesTell(tracks);
    DigitsAreNumeral(|tracks|);
    assert TellsCount(CountLine(|tracks|), |tracks|);
    EndTells(PlsEntryLines(tracks), tracks, CountLine(|tracks|));
  }

  // ----- which lines name a file ------------------------------------------------------------------------------

  /** A blank, a tab, a carriage return or a newline. */
  ghost predicate Blank(c: char) {
    c in " \t\r\n"
  }

  lemma SpaceIsBlank(c: char)
    ensures IsSpace(c) <==> Blank(c)
  {
    var blanks := " \t\r\n";
    assert blanks[0] == ' ' && blanks[1] == '\t' && blanks[2] == '\r' && blanks[3] == '\n';
  }

  ghost predicate AllSpace(s: string) {
    forall i :: 0 <= i < |s| ==> IsSpace(s[i])
  }

  ghost predicate Bare(s: string) {
    s != "" ==> !IsSpace(s[0]) && !IsSpace(s[|s| - 1])
  }

  /** `s` is `bare` with white space around it. */
  ghost predicate Padded(s: string, bare: string) {
    Bare(bare) && exists before, after :: s == before + bare + after && AllSpace(before) && AllSpace(after)
  }

  lemma {:induction false} TrimLeftStrips(s: string) returns (before: string)
    ensures s == before + TrimLeft(s) && AllSpace(before)
    ensures TrimLeft(s) != "" ==> !IsSpace(TrimLeft(s)[0])
  {
    before := "";
    if s != "" && IsSpace(s[0]) {
      var less := TrimLeftStrips(s[1..]);
      before := [s[0]] + less;
    }
  }

  lemma {:induction false} TrimRightStrips(s: string) returns (after: string)
    ensures s == TrimRight(s) + after && AllSpace(after)
    ensures TrimRight(s) != "" ==> !IsSpace(TrimRight(s)[|TrimRight(s)| - 1])
  {
    after := "";
    if s != "" && IsSpace(s[|s| - 1]) {
      var less := TrimRightStrips(s[..|s| - 1]);
      after := less + [s[|s| - 1]];
    }
  }

  /** Trimming takes away the white space around a text and nothing else. */
  lemma TrimStrips(s: string)
    ensures Padded(s, Trim(s))
  {
    var before := TrimLeftStrips(s);
    var after := TrimRightStrips(TrimLeft(s));
    assert s == before + Trim(s) + after;
    assert Trim(s) != "" ==> Trim(s)[0] == TrimLeft(s)[0];
  }

  /** A line of an M3U list names a file exactly when something is left of it that is not a comment: that. */
  lemma M3uNames(raw: string, path: string)
    ensures Entry(raw, false) == Some(path) <==> path == Trim(raw) && path != "" && path[0] != '#'
  {
  }

  /** The line has a key that starts with File, an equals sign and a value. */
  ghost predicate IsFileEntry(line: string, path: string) {
    exists key, value :: IsEntry(line, key, value) && line[0] != '#' && "File" <= Trim(key) && path == Trim(value)
  }

  ghost predicate IsEntry(line: string, key: string, value: string) {
    line == key + "=" + value && '=' !in key && value != ""
  }

  lemma EntryAt(line: string, key: string, value: string)
    requires IsEntry(line, key, value)
    ensures FirstIndex(line, '=') == Some(|key|) && line[..|key|] == key && line[|key| + 1..] == value
  {
    assert line[|key|] == '=' && line[..|key|] == key;
    FirstIndexUnique(line, '=', |key|);
  }

  lemma EntryIsThere(line: string, eq: nat)
    requires eq + 1 < |line| && line[eq] == '=' && '=' !in line[..eq]
    ensures IsEntry(line, line[..eq], line[eq + 1..])
  {
    var value := line[eq + 1..];
    assert line == line[..eq] + "=" + value;
  }

  /** A line of a PLS list names a file exactly when it is such an entry. */
  lemma PlsNames(raw: string, path: string)
    ensures Entry(raw, true) == Some(path) <==> IsFileEntry(Trim(raw), path)
  {
    var line := Trim(raw);
    if FirstIndex(line, '=').Some? && FirstIndex(line, '=').value + 1 < |line| {
      EntryIsThere(line, FirstIndex(line, '=').value);
    }
    forall key, value | IsEntry(line, key, value)
      ensures FirstIndex(line, '=') == Some(|key|) && line[..|key|] == key && line[|key| + 1..] == value
    {
      EntryAt(line, key, value);
    }
  }

  // ----- separators -------------------------------------------------------------------------------------------

  /** The same path up to the direction of its separators. */
  ghost predicate SamePath(a: string, b: string) {
    |a| == |b| && forall i :: 0 <= i < |a| ==> a[i] == b[i] || (IsSeparator(a[i]) && IsSeparator(b[i]))
  }

  predicate IsSeparator(c: char) {
    c == '/' || c == '\\'
  }

  /** In a library that stores its paths with slashes, the separators of a line do not matter. */
  lemma SeparatorsDoNotMatter(findByPath: string -> Option<int>, line: string, stored: string)
    requires forall p :: findByPath(p).Some? ==> '\\' !in p
    requires SamePath(line, stored) && '\\' !in stored
    ensures FindTrack(findByPath, line) == findByPath(stored)
  {
    assert forall i :: 0 <= i < |stored| ==> stored[i] in stored;
    assert Slashed(line) == stored;
    if '\\' !in line {
      assert forall i :: 0 <= i < |line| ==> line[i] in line;
      assert line == stored;
    }
  }

  /** Whatever the library stores, a line is looked up as it stands first. */
  lemma AsItStandsFirst(findByPath: string -> Option<int>, line: string)
    ensures findByPath(line).Some? ==> FindTrack(findByPath, line) == findByPath(line)
    ensures FindTrack(findByPath, line).Some? ==>
              exists p :: SamePath(p, line) && FindTrack(findByPath, line) == findByPath(p)
  {
    assert SamePath(line, line) && SamePath(Slashed(line), line);
  }
}
