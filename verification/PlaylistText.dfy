/** Playlist export as M3U or PLS text, and the importer that reads such text back. */
module PlaylistText {
  import opened Common
  import opened Sequences

  /** A track as the writer sees it; the duration already rounded to whole seconds. */
  datatype Track = Track(path: string, title: string, artist: string, seconds: int)

  // ----- the writer -------------------------------------------------------------------------------

  function Digits(n: nat): (s: string)
    ensures s != [] && forall i :: 0 <= i < |s| ==> '0' <= s[i] <= '9'
  {
    if n < 10 then [(n + '0' as int) as char] else Digits(n / 10) + [(n % 10 + '0' as int) as char]
  }

  function Decimal(n: int): string {
    if n < 0 then "-" + Digits(-n) else Digits(n)
  }

  function Title(t: Track): string {
    if t.title == "" then t.path else t.title
  }

  function Label(t: Track): string {
    if t.artist == "" then Title(t) else t.artist + " - " + Title(t)
  }

  function InfoLine(t: Track): string {
    "#EXTINF:" + Decimal(t.seconds) + "," + Label(t)
  }

  function M3uLines(tracks: seq<Track>): seq<string> {
    if tracks == [] then ["#EXTM3U"]
    else
      var k := |tracks| - 1;
      M3uLines(tracks[..k]) + [InfoLine(tracks[k]), tracks[k].path]
  }

  function FileLine(t: Track, i: nat): string {
    "File" + Digits(i) + "=" + t.path
  }

  function TitleLine(t: Track, i: nat): string {
    "Title" + Digits(i) + "=" + Label(t)
  }

  function LengthLine(t: Track, i: nat): string {
    "Length" + Digits(i) + "=" + Decimal(t.seconds)
  }

  function CountLine(n: nat): string {
    "NumberOfEntries=" + Digits(n)
  }

  function PlsEntryLines(tracks: seq<Track>): seq<string> {
    if tracks == [] then ["[playlist]"]
    else
      var k := |tracks| - 1;
      PlsEntryLines(tracks[..k])
      + [FileLine(tracks[k], k + 1), TitleLine(tracks[k], k + 1), LengthLine(tracks[k], k + 1)]
  }

  function PlsLines(tracks: seq<Track>): seq<string> {
    PlsEntryLines(tracks) + [CountLine(|tracks|), "Version=2"]
  }

  /** Each line followed by a newline. */
  function Joined(lines: seq<string>): string {
    if lines == [] then "" else Joined(lines[..|lines| - 1]) + lines[|lines| - 1] + "\n"
  }

  lemma {:induction false} JoinedAppend(a: seq<string>, b: seq<string>)
    ensures Joined(a + b) == Joined(a) + Joined(b)
  {
    if b == [] {
      assert a + b == a;
    } else {
      var k := |b| - 1;
      assert (a + b)[..|a| + k] == a + b[..k];
      JoinedAppend(a, b[..k]);
    }
  }

  lemma JoinedOne(a: seq<string>, x: string)
    ensures Joined(a + [x]) == Joined(a) + x + "\n"
  {
    assert (a + [x])[..|a|] == a;
  }

  lemma JoinedTwo(a: seq<string>, x: string, y: string)
    ensures Joined(a + [x, y]) == Joined(a) + x + "\n" + y + "\n"
  {
    JoinedOne(a, x);
    JoinedOne(a + [x], y);
    assert a + [x] + [y] == a + [x, y];
  }

  lemma JoinedThree(a: seq<string>, x: string, y: string, z: string)
    ensures Joined(a + [x, y, z]) == Joined(a) + x + "\n" + y + "\n" + z + "\n"
  {
    JoinedTwo(a, x, y);
    JoinedOne(a + [x, y], z);
    assert a + [x, y] + [z] == a + [x, y, z];
  }

  lemma M3uNext(tracks: seq<Track>, k: nat)
    requires k < |tracks|
    ensures Joined(M3uLines(tracks[..k + 1]))
         == Joined(M3uLines(tracks[..k])) + InfoLine(tracks[k]) + "\n" + tracks[k].path + "\n"
  {
    assert tracks[..k + 1][..k] == tracks[..k];
    JoinedTwo(M3uLines(tracks[..k]), InfoLine(tracks[k]), tracks[k].path);
  }

  lemma PlsNext(tracks: seq<Track>, k: nat)
    requires k < |tracks|
    ensures Joined(PlsEntryLines(tracks[..k + 1]))
         == Joined(PlsEntryLines(tracks[..k])) + FileLine(tracks[k], k + 1) + "\n" + TitleLine(tracks[k], k + 1) + "\n"
            + LengthLine(tracks[k], k + 1) + "\n"
  {
    assert tracks[..k + 1][..k] == tracks[..k];
    JoinedThree(PlsEntryLines(tracks[..k]), FileLine(tracks[k], k + 1), TitleLine(tracks[k], k + 1),
                LengthLine(tracks[k], k + 1));
  }

  lemma PlsEnd(tracks: seq<Track>)
    ensures Joined(PlsLines(tracks)) == Joined(PlsEntryLines(tracks)) + CountLine(|tracks|) + "\n" + "Version=2" + "\n"
  {
    JoinedTwo(PlsEntryLines(tracks), CountLine(|tracks|), "Version=2");
  }

  /** writePlaylistText for format "m3u". */
  method WriteM3u(tracks: seq<Track>) returns (os: string)
    ensures os == Joined(M3uLines(tracks))
  {
    os := "#EXTM3U\n";
    JoinedOne([], "#EXTM3U");
    for k := 0 to |tracks|
      invariant os == Joined(M3uLines(tracks[..k]))
    {
      M3uNext(tracks, k);
      var t := tracks[k];
      var title := if t.title == "" then t.path else t.title;
      var info := "#EXTINF:" + Decimal(t.seconds) + "," + (if t.artist != "" then t.artist + " - " + title else title);
      os := os + info + "\n";
      os := os + t.path + "\n";
    }
    assert tracks[..|tracks|] == tracks;
  }

  /** writePlaylistText for format "pls". */
  method WritePls(tracks: seq<Track>) returns (os: string)
    ensures os == Joined(PlsLines(tracks))
  {
    os := "[playlist]\n";
    JoinedOne([], "[playlist]");
    for k := 0 to |tracks|
      invariant os == Joined(PlsEntryLines(tracks[..k]))
    {
      PlsNext(tracks, k);
      var t := tracks[k];
      var i := k + 1;
      var file := "File" + Digits(i) + "=" + t.path;
      os := os + file + "\n";
      var title := if t.title == "" then t.path else t.title;
      if t.artist != "" {
        title := t.artist + " - " + title;
      }
      var titled := "Title" + Digits(i) + "=" + title;
      os := os + titled + "\n";
      var length := "Length" + Digits(i) + "=" + Decimal(t.seconds);
      os := os + length + "\n";
    }
    assert tracks[..|tracks|] == tracks;
    PlsEnd(tracks);
    var count := "NumberOfEntries=" + Digits(|tracks|);
    os := os + count + "\n";
    os := os + "Version=2" + "\n";
  }

  // ----- the reader -------------------------------------------------------------------------------

  /** std::getline, repeatedly. */
  function Lines(text: string): seq<string>
    decreases |text|
  {
    if text == "" then [] else
      match FirstIndex(text, '\n')
      case None => [text]
      case Some(i) => [text[..i]] + Lines(text[i + 1..])
  }

  predicate IsSpace(c: char) {
    c == ' ' || c == '\t' || c == '\r' || c == '\n'
  }

  function TrimLeft(s: string): string {
    if s != "" && IsSpace(s[0]) then TrimLeft(s[1..]) else s
  }

  function TrimRight(s: string): string {
    if s != "" && IsSpace(s[|s| - 1]) then TrimRight(s[..|s| - 1]) else s
  }

  function Trim(s: string): string {
    TrimRight(TrimLeft(s))
  }

  /** The path an M3U line contributes. */
  function M3uEntry(raw: string): Option<string> {
    var line := Trim(raw);
    if line == "" || line[0] == '#' then None else Some(line)
  }

  /** The path a PLS line contributes: the value of a key that starts with File. */
  function PlsEntry(raw: string): Option<string> {
    var line := Trim(raw);
    if line == "" || line[0] == '#' then None
    else
      match FirstIndex(line, '=')
      case None => None
      case Some(eq) =>
        if eq + 1 < |line| && "File" <= Trim(line[..eq]) then Some(Trim(line[eq + 1..])) else None
  }

  function Entry(raw: string, pls: bool): Option<string> {
    if pls then PlsEntry(raw) else M3uEntry(raw)
  }

  function Entries(lines: seq<string>, pls: bool): seq<string> {
    if lines == [] then []
    else
      var k := |lines| - 1;
      Entries(lines[..k], pls) + (match Entry(lines[k], pls) case None => [] case Some(e) => [e])
  }

  /** The line loop of handle(PlaylistImport). */
  method ParsePlaylist(text: string, pls: bool) returns (found: seq<string>)
    ensures found == Entries(Lines(text), pls)
  {
    found := [];
    var lines := Lines(text);
    for k := 0 to |lines|
      invariant found == Entries(lines[..k], pls)
    {
      assert lines[..k + 1][..k] == lines[..k];
      var line := Trim(lines[k]);
      if line == "" || line[0] == '#' {
        continue;
      }
      if pls {
        var eq := FirstIndex(line, '=');
        if eq.Some? && eq.value + 1 < |line| {
          var key := Trim(line[..eq.value]);
          var val := Trim(line[eq.value + 1..]);
          if "File" <= key {
            found := found + [val];
          }
        }
      } else {
        found := found + [line];
      }
    }
    assert lines[..|lines|] == lines;
  }

  // ----- round trip -------------------------------------------------------------------------------

  ghost predicate OneLine(s: string) {
    forall i :: 0 <= i < |s| ==> s[i] != '\n'
  }

  /** Not empty, no newline, no surrounding white space. */
  ghost predicate Plain(s: string) {
    s != "" && OneLine(s) && !IsSpace(s[0]) && !IsSpace(s[|s| - 1])
  }

  /** The paths that survive: plain ones, and in M3U not starting with `#`. */
  ghost predicate Survives(path: string, pls: bool) {
    Plain(path) && (!pls ==> path[0] != '#')
  }

  lemma LinesOfOne(x: string, rest: string)
    requires OneLine(x)
    ensures Lines(x + "\n" + rest) == [x] + Lines(rest)
  {
    var more := x + "\n" + rest;
    assert more[|x|] == '\n' && more[..|x|] == x && more[|x| + 1..] == rest;
    FirstIndexUnique(more, '\n', |x|);
  }

  lemma Regroup(a: string, b: string, c: string, d: string)
    ensures a + b + c + d == a + (b + c + d)
  {
  }

  lemma LastRejoined(a: seq<string>, b: seq<string>)
    requires a != []
    ensures a[..|a| - 1] + ([a[|a| - 1]] + b) == a + b
  {
  }

  ghost predicate AllOneLine(lines: seq<string>) {
    forall k :: 0 <= k < |lines| ==> OneLine(lines[k])
  }

  lemma {:induction false} LinesOfJoined(lines: seq<string>, rest: string)
    requires AllOneLine(lines)
    ensures Lines(Joined(lines) + rest) == lines + Lines(rest)
    decreases |lines|
  {
    if lines == [] {
      assert Joined(lines) + rest == rest && lines + Lines(rest) == Lines(rest);
    } else {
      var k := |lines| - 1;
      var x := lines[k];
      Regroup(Joined(lines[..k]), x, "\n", rest);
      LinesOfJoined(lines[..k], x + "\n" + rest);
      LinesOfOne(x, rest);
      LastRejoined(lines, Lines(rest));
    }
  }

  lemma {:induction false} TrimLeftResult(s: string)
    ensures TrimLeft(s) == "" || !IsSpace(TrimLeft(s)[0])
    ensures OneLine(s) ==> OneLine(TrimLeft(s))
    ensures s != "" && !IsSpace(s[|s| - 1]) ==> TrimLeft(s) != "" && TrimLeft(s)[|TrimLeft(s)| - 1] == s[|s| - 1]
  {
    if s != "" && IsSpace(s[0]) {
      TrimLeftResult(s[1..]);
    }
  }

  lemma {:induction false} TrimRightResult(s: string)
    ensures TrimRight(s) == "" || !IsSpace(TrimRight(s)[|TrimRight(s)| - 1])
    ensures OneLine(s) ==> OneLine(TrimRight(s))
    ensures s != "" && !IsSpace(s[0]) ==> TrimRight(s) != "" && TrimRight(s)[0] == s[0]
  {
    if s != "" && IsSpace(s[|s| - 1]) {
      TrimRightResult(s[..|s| - 1]);
    }
  }

  lemma TrimResult(s: string)
    requires OneLine(s)
    ensures Trim(s) == "" || Plain(Trim(s))
    ensures Plain(s) ==> Trim(s) == s
    ensures s != "" && !IsSpace(s[0]) ==> Trim(s) != "" && Trim(s)[0] == s[0]
  {
    TrimLeftResult(s);
    TrimRightResult(TrimLeft(s));
  }

  /** Whatever a line contributes is a path that survives. */
  lemma EntrySurvives(raw: string, pls: bool)
    requires OneLine(raw)
    ensures Entry(raw, pls).Some? ==> Survives(Entry(raw, pls).value, pls)
  {
    TrimResult(raw);
    var line := Trim(raw);
    if pls && Entry(raw, pls).Some? {
      var val := line[FirstIndex(line, '=').value + 1..];
      TrimResult(val);
      TrimLeftResult(val);
      TrimRightResult(TrimLeft(val));
    }
  }

  lemma {:induction false} LinesAreLines(text: string)
    ensures AllOneLine(Lines(text))
    decreases |text|
  {
    if text != "" && FirstIndex(text, '\n').Some? {
      var i := FirstIndex(text, '\n').value;
      assert forall j :: 0 <= j < i ==> text[..i][j] in text[..i];
      LinesAreLines(text[i + 1..]);
    }
  }

  lemma {:induction false} EntriesSurvive(lines: seq<string>, pls: bool)
    requires AllOneLine(lines)
    ensures forall k :: 0 <= k < |Entries(lines, pls)| ==> Survives(Entries(lines, pls)[k], pls)
  {
    if lines != [] {
      EntriesSurvive(lines[..|lines| - 1], pls);
      EntrySurvives(lines[|lines| - 1], pls);
    }
  }

  ghost predicate OneLineLabels(tracks: seq<Track>) {
    forall i :: 0 <= i < |tracks| ==> OneLine(tracks[i].title) && OneLine(tracks[i].artist)
  }

  ghost predicate AllSurvive(tracks: seq<Track>, pls: bool) {
    forall i :: 0 <= i < |tracks| ==> Survives(tracks[i].path, pls)
  }

  /** The entries read from a text. */
  function Read(text: string, pls: bool): seq<string> {
    Entries(Lines(text), pls)
  }

  /** The entries read from one written line, which may hold newlines of its own. */
  function Yield(line: string, pls: bool): seq<string> {
    Read(line + "\n", pls)
  }

  /** A newline separates what comes before it from what comes after. */
  lemma {:induction false} LinesSplit(x: string, rest: string)
    ensures Lines(x + "\n" + rest) == Lines(x + "\n") + Lines(rest)
    decreases |x|
  {
    var k := FirstNewline(x, rest);
    LinesHead(x + "\n", k);
    LinesHead(x + "\n" + rest, k);
    if k < |x| {
      LinesSplit(x[k + 1..], rest);
      ConcatAssociates([x[..k]], Lines(x[k + 1..] + "\n"), Lines(rest));
    }
  }

  lemma LinesHead(text: string, k: nat)
    requires FirstIndex(text, '\n') == Some(k)
    ensures Lines(text) == [text[..k]] + Lines(text[k + 1..])
  {
  }

  /** The first newline, wherever the text goes on. */
  lemma FirstNewline(x: string, rest: string) returns (k: nat)
    ensures k <= |x| && FirstIndex(x + "\n", '\n') == Some(k) && FirstIndex(x + "\n" + rest, '\n') == Some(k)
    ensures (x + "\n")[..k] == x[..k] && (x + "\n" + rest)[..k] == x[..k]
    ensures k < |x| ==>
              (x + "\n")[k + 1..] == x[k + 1..] + "\n" && (x + "\n" + rest)[k + 1..] == x[k + 1..] + "\n" + rest
    ensures k == |x| ==> (x + "\n")[k + 1..] == "" && (x + "\n" + rest)[k + 1..] == rest
  {
    var short := x + "\n";
    assert short[|x|] == '\n';
    k := FirstIndex(short, '\n').value;
    assert (short + rest)[..k] == short[..k];
    FirstIndexUnique(short + rest, '\n', k);
  }

  lemma ConcatAssociates<T>(a: seq<T>, b: seq<T>, c: seq<T>)
    ensures a + (b + c) == a + b + c
  {
  }

  lemma {:induction false} EntriesAppend(a: seq<string>, b: seq<string>, pls: bool)
    ensures Entries(a + b, pls) == Entries(a, pls) + Entries(b, pls)
  {
    if b == [] {
      assert a + b == a;
    } else {
      var k := |b| - 1;
      assert (a + b)[..|a| + k] == a + b[..k];
      EntriesAppend(a, b[..k], pls);
    }
  }

  /** The entries of a text of written lines are those of its lines, one after another. */
  lemma ReadNext(lines: seq<string>, x: string, pls: bool)
    ensures Read(Joined(lines + [x]), pls) == Read(Joined(lines), pls) + Yield(x, pls)
  {
    JoinedOne(lines, x);
    if lines == [] {
      assert Joined(lines) + x + "\n" == x + "\n";
    } else {
      var k := |lines| - 1;
      var before := Joined(lines[..k]) + lines[k];
      LinesSplit(before, x + "\n");
      EntriesAppend(Lines(before + "\n"), Lines(x + "\n"), pls);
      assert Joined(lines) + x + "\n" == before + "\n" + (x + "\n");
    }
  }

  lemma ReadTwoNext(lines: seq<string>, x: string, y: string, pls: bool)
    ensures Read(Joined(lines + [x, y]), pls) == Read(Joined(lines), pls) + Yield(x, pls) + Yield(y, pls)
  {
    ReadNext(lines, x, pls);
    ReadNext(lines + [x], y, pls);
    assert lines + [x] + [y] == lines + [x, y];
  }

  lemma ReadThreeNext(lines: seq<string>, x: string, y: string, z: string, pls: bool)
    ensures Read(Joined(lines + [x, y, z]), pls)
         == Read(Joined(lines), pls) + Yield(x, pls) + Yield(y, pls) + Yield(z, pls)
  {
    ReadTwoNext(lines, x, y, pls);
    ReadNext(lines + [x, y], z, pls);
    assert lines + [x, y] + [z] == lines + [x, y, z];
  }

  lemma YieldOfOne(x: string, pls: bool)
    requires OneLine(x)
    ensures Yield(x, pls) == match Entry(x, pls) case None => [] case Some(e) => [e]
  {
    LinesOfOne(x, "");
    assert x + "\n" + "" == x + "\n" && [x] + Lines("") == [x];
    EntriesOfOne(x, pls);
  }

  lemma EntriesOfOne(x: string, pls: bool)
    ensures Entries([x], pls) == match Entry(x, pls) case None => [] case Some(e) => [e]
  {
    assert Entries([x][..0], pls) == [];
  }

  // ----- lines that name no file, and those that do

  lemma CommentNamesNoFile(line: string)
    requires OneLine(line) && line != "" && line[0] == '#'
    ensures Yield(line, false) == []
  {
    TrimResult(line);
    YieldOfOne(line, false);
  }

  /** A PLS line whose first character is not F names no file. */
  lemma OtherKeyNamesNoFile(line: string)
    requires OneLine(line) && line != "" && !IsSpace(line[0]) && line[0] != 'F' && line[0] != '='
    ensures PlsEntry(line) == None
  {
    TrimResult(line);
    var t := Trim(line);
    if FirstIndex(t, '=').Some? {
      var eq := FirstIndex(t, '=').value;
      assert t[..eq][0] == line[0];
      assert OneLine(t[..eq]);
      TrimResult(t[..eq]);
    }
  }

  lemma OtherKeyYieldsNothing(line: string)
    requires OneLine(line) && line != "" && !IsSpace(line[0]) && line[0] != 'F' && line[0] != '='
    ensures Yield(line, true) == []
  {
    OtherKeyNamesNoFile(line);
    YieldOfOne(line, true);
  }

  lemma PathNamesItself(path: string)
    requires Survives(path, false)
    ensures Yield(path, false) == [path]
  {
    TrimResult(path);
    YieldOfOne(path, false);
  }

  lemma FileLineNamesPath(t: Track, n: nat)
    requires Plain(t.path)
    ensures OneLine(FileLine(t, n)) && PlsEntry(FileLine(t, n)) == Some(t.path)
  {
    var key := "File" + Digits(n);
    var line := key + "=" + t.path;
    assert Plain(key) && forall i :: 0 <= i < |key| ==> key[i] != '=';
    assert Plain(line);
    TrimResult(line);
    TrimResult(key);
    TrimResult(t.path);
    assert line[|key|] == '=' && line[..|key|] == key && line[|key| + 1..] == t.path;
    FirstIndexUnique(line, '=', |key|);
    assert key[..4] == "File";
  }

  lemma LengthYieldsNothing(t: Track, n: nat)
    ensures Yield(LengthLine(t, n), true) == []
  {
    assert OneLine("Length") && OneLine("=") && OneLine(Digits(n)) && OneLine(Decimal(t.seconds));
    OtherKeyYieldsNothing(LengthLine(t, n));
  }

  lemma CountYieldsNothing(n: nat)
    ensures Yield(CountLine(n), true) == []
  {
    assert OneLine("NumberOfEntries=") && OneLine(Digits(n));
    OtherKeyYieldsNothing(CountLine(n));
  }

  lemma FrameYieldsNothing(line: string)
    requires line == "[playlist]" || line == "Version=2"
    ensures Yield(line, true) == []
  {
    OtherKeyYieldsNothing(line);
  }

  lemma HeadYieldsNothing(head: string)
    requires head == "#EXTM3U"
    ensures Yield(head, false) == []
  {
    CommentNamesNoFile(head);
  }

  // ----- labels

  /** The line that carries the label of the i-th track. */
  function LabelLine(t: Track, i: nat, pls: bool): string {
    if pls then TitleLine(t, i + 1) else InfoLine(t)
  }

  predicate Silent(t: Track, i: nat, pls: bool) {
    Yield(LabelLine(t, i, pls), pls) == []
  }

  /** No label names a file of its own. */
  predicate SilentLabels(tracks: seq<Track>, pls: bool) {
    tracks == [] || (SilentLabels(tracks[..|tracks| - 1], pls) && Silent(tracks[|tracks| - 1], |tracks| - 1, pls))
  }

  lemma InfoPrefixIsComment(seconds: int, text: string)
    requires OneLine(text)
    ensures OneLine("#EXTINF:" + Decimal(seconds) + "," + text)
    ensures Yield("#EXTINF:" + Decimal(seconds) + "," + text, false) == []
  {
    assert OneLine("#EXTINF:") && OneLine(",") && OneLine(Decimal(seconds));
    CommentNamesNoFile("#EXTINF:" + Decimal(seconds) + "," + text);
  }

  lemma TitlePrefixIsOther(n: nat, text: string)
    requires OneLine(text)
    ensures OneLine("Title" + Digits(n) + "=" + text)
    ensures Yield("Title" + Digits(n) + "=" + text, true) == []
  {
    assert OneLine("Title") && OneLine("=") && OneLine(Digits(n));
    OtherKeyYieldsNothing("Title" + Digits(n) + "=" + text);
  }

  /** One-line labels are silent ... */
  lemma {:induction false} OneLineIsSilent(tracks: seq<Track>, pls: bool)
    requires OneLineLabels(tracks) && AllSurvive(tracks, pls)
    ensures SilentLabels(tracks, pls)
  {
    if tracks != [] {
      var k := |tracks| - 1;
      OneLineIsSilent(tracks[..k], pls);
      LabelOneLine(tracks[k]);
      LabelLineOpens(tracks[k], k, pls);
      PrefixedYieldsNothing(tracks[k], k, Label(tracks[k]), pls);
    }
  }

  lemma LabelOneLine(t: Track)
    requires OneLine(t.title) && OneLine(t.artist) && Plain(t.path)
    ensures OneLine(Label(t))
  {
    assert OneLine(" - ");
  }

  function LabelPrefix(t: Track, i: nat, pls: bool): string {
    if pls then "Title" + Digits(i + 1) + "=" else "#EXTINF:" + Decimal(t.seconds) + ","
  }

  lemma LabelLineOpens(t: Track, i: nat, pls: bool)
    ensures LabelLine(t, i, pls) == LabelPrefix(t, i, pls) + Label(t)
  {
  }

  lemma PrefixedYieldsNothing(t: Track, i: nat, head: string, pls: bool)
    requires OneLine(head)
    ensures Yield(LabelPrefix(t, i, pls) + head, pls) == []
  {
    if pls {
      TitlePrefixIsOther(i + 1, head);
    } else {
      InfoPrefixIsComment(t.seconds, head);
    }
  }

  /** What is written as one line with a newline in it is read as two. */
  lemma YieldSplits(x: string, y: string, pls: bool)
    ensures Yield(x + "\n" + y, pls) == Yield(x, pls) + Yield(y, pls)
  {
    LinesSplit(x, y + "\n");
    EntriesAppend(Lines(x + "\n"), Lines(y + "\n"), pls);
    assert x + "\n" + y + "\n" == x + "\n" + (y + "\n");
  }

  lemma TwoLineLabel(t: Track, i: nat, head: string, line: string, pls: bool)
    requires t.artist == "" && t.title == head + "\n" + line
    ensures LabelLine(t, i, pls) == LabelPrefix(t, i, pls) + head + "\n" + line
  {
    LabelLineOpens(t, i, pls);
    ConcatAssociates(LabelPrefix(t, i, pls), head + "\n", line);
    ConcatAssociates(LabelPrefix(t, i, pls), head, "\n");
  }

  /** ... and a title with a newline in it yields what its second line names. */
  lemma SecondLineCounts(t: Track, i: nat, head: string, line: string, pls: bool)
    requires t.artist == "" && t.title == head + "\n" + line && OneLine(head) && OneLine(line)
    ensures Yield(LabelLine(t, i, pls), pls) == match Entry(line, pls) case None => [] case Some(e) => [e]
  {
    TwoLineLabel(t, i, head, line, pls);
    YieldSplits(LabelPrefix(t, i, pls) + head, line, pls);
    PrefixedYieldsNothing(t, i, head, pls);
    NothingBefore(Yield(line, pls));
    YieldOfOne(line, pls);
  }

  lemma NothingBefore<T>(s: seq<T>)
    ensures [] + s == s
  {
  }

  // ----- the law

  function Paths(tracks: seq<Track>): seq<string> {
    seq(|tracks|, i requires 0 <= i < |tracks| => tracks[i].path)
  }

  lemma PathsNext(tracks: seq<Track>)
    requires tracks != []
    ensures Paths(tracks) == Paths(tracks[..|tracks| - 1]) + [tracks[|tracks| - 1].path]
  {
  }

  /** The text is read as the paths, with whatever the labels name in between. */
  ghost predicate PathsAndMore(found: seq<string>, tracks: seq<Track>, pls: bool) {
    && |found| >= |tracks|
    && (|found| == |tracks| ==> SilentLabels(tracks, pls))
    && (SilentLabels(tracks, pls) ==> found == Paths(tracks))
  }

  lemma OneTrackMore(found: seq<string>, tracks: seq<Track>, pls: bool, more: seq<string>)
    requires tracks != [] && PathsAndMore(found, tracks[..|tracks| - 1], pls)
    requires var k := |tracks| - 1;
             var named := Yield(LabelLine(tracks[k], k, pls), pls);
             more == named + [tracks[k].path] || more == [tracks[k].path] + named
    ensures PathsAndMore(found + more, tracks, pls)
  {
    PathsNext(tracks);
  }

  lemma {:induction false} M3uReads(tracks: seq<Track>)
    requires AllSurvive(tracks, false)
    ensures PathsAndMore(Read(Joined(M3uLines(tracks)), false), tracks, false)
  {
    if tracks == [] {
      HeadYieldsNothing("#EXTM3U");
      ReadNext([], "#EXTM3U", false);
      assert [] + ["#EXTM3U"] == ["#EXTM3U"];
    } else {
      var k := |tracks| - 1;
      var t, lines := tracks[k], M3uLines(tracks[..k]);
      M3uReads(tracks[..k]);
      ReadTwoNext(lines, InfoLine(t), t.path, false);
      PathNamesItself(t.path);
      ConcatAssociates(Read(Joined(lines), false), Yield(InfoLine(t), false), [t.path]);
      OneTrackMore(Read(Joined(lines), false), tracks, false, Yield(InfoLine(t), false) + [t.path]);
    }
  }

  lemma TrackYields(t: Track, n: nat)
    requires Plain(t.path)
    ensures Yield(FileLine(t, n), true) == [t.path] && Yield(LengthLine(t, n), true) == []
  {
    FileLineNamesPath(t, n);
    YieldOfOne(FileLine(t, n), true);
    LengthYieldsNothing(t, n);
  }

  lemma PlsNextReads(lines: seq<string>, t: Track, n: nat)
    requires Plain(t.path)
    ensures Read(Joined(lines + [FileLine(t, n), TitleLine(t, n), LengthLine(t, n)]), true)
         == Read(Joined(lines), true) + ([t.path] + Yield(TitleLine(t, n), true))
  {
    ReadThreeNext(lines, FileLine(t, n), TitleLine(t, n), LengthLine(t, n), true);
    TrackYields(t, n);
    ConcatAssociates(Read(Joined(lines), true), [t.path], Yield(TitleLine(t, n), true));
    NothingMore(Read(Joined(lines), true) + [t.path] + Yield(TitleLine(t, n), true));
  }

  lemma NothingMore<T>(s: seq<T>)
    ensures s + [] == s
  {
  }

  lemma {:induction false} PlsReads(tracks: seq<Track>)
    requires AllSurvive(tracks, true)
    ensures PathsAndMore(Read(Joined(PlsEntryLines(tracks)), true), tracks, true)
  {
    if tracks == [] {
      FrameYieldsNothing("[playlist]");
      ReadNext([], "[playlist]", true);
      assert [] + ["[playlist]"] == ["[playlist]"];
    } else {
      var k := |tracks| - 1;
      var t, lines := tracks[k], PlsEntryLines(tracks[..k]);
      PlsReads(tracks[..k]);
      PlsNextReads(lines, t, k + 1);
      OneTrackMore(Read(Joined(lines), true), tracks, true, [t.path] + Yield(TitleLine(t, k + 1), true));
    }
  }

  function Exported(tracks: seq<Track>, pls: bool): string {
    Joined(if pls then PlsLines(tracks) else M3uLines(tracks))
  }

  lemma ExportedReads(tracks: seq<Track>, pls: bool)
    requires AllSurvive(tracks, pls)
    ensures PathsAndMore(Read(Exported(tracks, pls), pls), tracks, pls)
  {
    if pls {
      PlsReads(tracks);
      CountYieldsNothing(|tracks|);
      FrameYieldsNothing("Version=2");
      ReadTwoNext(PlsEntryLines(tracks), CountLine(|tracks|), "Version=2", true);
    } else {
      M3uReads(tracks);
    }
  }

  /** Reading back what was written gives the same paths exactly when every path survives the format and no label
      names a file of its own. */
  lemma ExportImportRoundTrip(tracks: seq<Track>, pls: bool)
    ensures Read(Exported(tracks, pls), pls) == Paths(tracks) <==>
            AllSurvive(tracks, pls) && SilentLabels(tracks, pls)
  {
    var text := Exported(tracks, pls);
    if Read(text, pls) == Paths(tracks) {
      LinesAreLines(text);
      EntriesSurvive(Lines(text), pls);
      forall i | 0 <= i < |tracks|
        ensures Survives(tracks[i].path, pls)
      {
        assert Paths(tracks)[i] == tracks[i].path;
      }
    }
    if AllSurvive(tracks, pls) {
      ExportedReads(tracks, pls);
    }
  }

  lemma HeadReads()
    ensures Read(Joined(M3uLines([])), false) == []
  {
    var head := "#EXTM3U";
    HeadYieldsNothing(head);
    ReadNext([], head, false);
    assert [] + [head] == M3uLines([]);
  }

  lemma M3uLinesOfOne(t: Track)
    ensures M3uLines([t]) == M3uLines([]) + [InfoLine(t), t.path]
  {
    assert [t][..0] == [];
  }

  /** A single track is read back after what its label names. */
  lemma OneTrackReads(t: Track)
    requires Survives(t.path, false)
    ensures Read(Exported([t], false), false) == Yield(InfoLine(t), false) + [t.path]
  {
    HeadReads();
    M3uLinesOfOne(t);
    ReadTwoNext(M3uLines([]), InfoLine(t), t.path, false);
    PathNamesItself(t.path);
  }

  /** A title with a path on its second line is read back as one more file. */
  lemma NewlineTitle(t: Track, head: string, path: string)
    requires Survives(t.path, false) && t.artist == "" && t.title == head + "\n" + path
    requires OneLine(head) && Survives(path, false)
    ensures Read(Exported([t], false), false) == [path, t.path]
  {
    SecondLineCounts(t, 0, head, path, false);
    TrimResult(path);
    OneTrackReads(t);
  }

  lemma NewlineTitleExample()
    ensures Read(Exported([Track("/a.mp3", "a" + "\n" + "/b.mp3", "", 1)], false), false) == ["/b.mp3", "/a.mp3"]
  {
    var here, there := "/a.mp3", "/b.mp3";
    assert Plain(here) && Plain(there) && OneLine("a");
    NewlineTitle(Track(here, "a" + "\n" + there, "", 1), "a", there);
  }

  // ----- matching against the library ---------------------------------------------------------------

  function Slashed(line: string): string {
    seq(|line|, i requires 0 <= i < |line| => if line[i] == '\\' then '/' else line[i])
  }

  /** findTrack: the line as it stands, then with its separators turned round. */
  function FindTrack(findByPath: string -> Option<int>, line: string): Option<int> {
    if findByPath(line).Some? then findByPath(line)
    else if '\\' in line then findByPath(Slashed(line))
    else None
  }

  /** The ids the lines lead to, in order. */
  function Hits(findByPath: string -> Option<int>, lines: seq<string>): seq<int> {
    if lines == [] then []
    else
      var k := |lines| - 1;
      Hits(findByPath, lines[..k])
      + (match FindTrack(findByPath, lines[k]) case None => [] case Some(id) => [id])
  }

  function AnyId(id: int): bool {
    true
  }

  function Unrepeated(ids: seq<int>): seq<int> {
    Distinct(ids, AnyId)
  }

  lemma HitsNext(findByPath: string -> Option<int>, lines: seq<string>, k: nat)
    requires k < |lines|
    ensures Hits(findByPath, lines[..k + 1])
         == if FindTrack(findByPath, lines[k]).None? then Hits(findByPath, lines[..k])
            else Hits(findByPath, lines[..k]) + [FindTrack(findByPath, lines[k]).value]
  {
    assert lines[..k + 1][..k] == lines[..k];
    assert Hits(findByPath, lines[..k]) + [] == Hits(findByPath, lines[..k]);
  }

  lemma UnrepeatedNext(ids: seq<int>, id: int)
    ensures Unrepeated(ids + [id]) == if id in Unrepeated(ids) then Unrepeated(ids) else Unrepeated(ids) + [id]
  {
    assert (ids + [id])[..|ids|] == ids;
  }

  /** The matching loop of handle(PlaylistImport): the distinct hits in order, every line accounted for. */
  method ImportLines(lines: seq<string>, findByPath: string -> Option<int>)
    returns (r: Status, ids: seq<int>, matched: nat, skipped: nat, duplicates: nat)
    ensures ids == Unrepeated(Hits(findByPath, lines))
    ensures matched + skipped + duplicates == |lines|
    ensures matched == |ids| && NoDup(ids) && skipped == |lines| - |Hits(findByPath, lines)|
    ensures r == if ids == [] then Err(NotFound) else DONE
  {
    ids, matched, skipped, duplicates := [], 0, 0, 0;
    for k := 0 to |lines|
      invariant ids == Unrepeated(Hits(findByPath, lines[..k]))
      invariant matched + skipped + duplicates == k
      invariant matched == |ids| && skipped == k - |Hits(findByPath, lines[..k])|
    {
      HitsNext(findByPath, lines, k);
      var tr := FindTrack(findByPath, lines[k]);
      if tr.None? {
        skipped := skipped + 1;
        continue;
      }
      UnrepeatedNext(Hits(findByPath, lines[..k]), tr.value);
      if tr.value in ids {
        duplicates := duplicates + 1;
        continue;
      }
      ids := ids + [tr.value];
      matched := matched + 1;
    }
    assert lines[..|lines|] == lines;
    DistinctIsFirstOccurrences(Hits(findByPath, lines), AnyId);
    r := if ids == [] then Err(NotFound) else DONE;
  }

  lemma {:induction false} HitsOfPaths(tracks: seq<Track>, ids: seq<int>, findByPath: string -> Option<int>)
    requires |ids| == |tracks| && forall i :: 0 <= i < |tracks| ==> findByPath(tracks[i].path) == Some(ids[i])
    ensures Hits(findByPath, Paths(tracks)) == ids
  {
    if tracks != [] {
      var k := |tracks| - 1;
      assert Paths(tracks)[..k] == Paths(tracks[..k]);
      HitsOfPaths(tracks[..k], ids[..k], findByPath);
      assert ids == ids[..k] + [ids[k]];
    }
  }

  lemma {:induction false} DistinctOfNoDup(ids: seq<int>)
    requires NoDup(ids)
    ensures Unrepeated(ids) == ids
  {
    if ids != [] {
      var k := |ids| - 1;
      DistinctOfNoDup(ids[..k]);
      assert ids == ids[..k] + [ids[k]];
    }
  }

  /** Exporting a duplicate-free playlist whose tracks the library finds by path, and importing a text that is read
      back as its paths, gives the same tracks in the same order. */
  method ExportThenImport(tracks: seq<Track>, ids: seq<int>, pls: bool, findByPath: string -> Option<int>)
    returns (r: Status, got: seq<int>)
    requires tracks != [] && |ids| == |tracks| && NoDup(ids)
    requires forall i :: 0 <= i < |tracks| ==> findByPath(tracks[i].path) == Some(ids[i])
    ensures AllSurvive(tracks, pls) && SilentLabels(tracks, pls) ==> r == DONE && got == ids
  {
    var text;
    if pls {
      text := WritePls(tracks);
    } else {
      text := WriteM3u(tracks);
    }
    var lines := ParsePlaylist(text, pls);
    ExportImportRoundTrip(tracks, pls);
    HitsOfPaths(tracks, ids, findByPath);
    DistinctOfNoDup(ids);
    var m, s, d;
    r, got, m, s, d := ImportLines(lines, findByPath);
  }
}
