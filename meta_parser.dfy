/** `Parser::new`: the optional meta header in front of a presentation.
    A text that starts `---meta` and a line ending, and later holds `---`
    and a line ending, carries `key: value` lines in between; `fullscreen`
    and `title` are recognised, everything after the closing `---` is the
    presentation body handed on to the mark-up parser. */
module MetaParser {
  import opened Wrappers
  import opened Strings
  import Seqs

  /** The platform's line ending, fixed when the program is built. */
  datatype LineEnding = Lf | CrLf

  function EndingText(le: LineEnding): (r: string)
    ensures |r| >= 1 && r[|r| - 1] == '\n'
  {
    match le
    case Lf => "\n"
    case CrLf => "\r\n"
  }

  const DefaultTitle: string := "OpMark Egui"

  function MetaOpen(le: LineEnding): string
  {
    "---meta" + EndingText(le)
  }

  function MetaClose(le: LineEnding): string
  {
    "---" + EndingText(le)
  }

  /** The settings the header lines build up. */
  datatype Settings = Settings(fullscreen: bool, title: string)

  /** What `Parser::new` hands on: the window settings and the text for
      the mark-up parser. */
  datatype Meta = Meta(fullscreen: bool, title: string, body: string)

  /** A line `fullscreen: true`, with any whitespace around the value. */
  predicate EnablesFullscreen(line: string)
  {
    var kv := SplitOnce(line, ':');
    kv.key == "fullscreen" && kv.value.Some? && Trim(kv.value.value) == "true"
  }

  /** A line `title: ...`; its title is the trimmed text after the first
      colon. */
  predicate SetsTitle(line: string)
  {
    var kv := SplitOnce(line, ':');
    kv.key == "title" && kv.value.Some?
  }

  function TitleOf(line: string): string
    requires SetsTitle(line)
  {
    Trim(SplitOnce(line, ':').value.value)
  }

  /** One header line applied to the settings so far: the key is the text
      before the first colon, matched exactly; unknown keys, and known keys
      without a colon, leave the settings as they are. */
  function ApplyLine(st: Settings, line: string): (r: Settings)
    ensures r.fullscreen <==> st.fullscreen || EnablesFullscreen(line)
    ensures r.title == if SetsTitle(line) then TitleOf(line) else st.title
  {
    var kv := SplitOnce(line, ':');
    if kv.key == "fullscreen" then
      if kv.value.Some? && Trim(kv.value.value) == "true" then Settings(true, st.title) else st
    else if kv.key == "title" then
      if kv.value.Some? then Settings(st.fullscreen, Trim(kv.value.value)) else st
    else st
  }

  /** The settings after the header lines, in order, from the defaults. */
  function LinesSettings(lines: seq<string>): Settings
    decreases |lines|
  {
    if lines == [] then Settings(false, DefaultTitle)
    else ApplyLine(LinesSettings(lines[..|lines| - 1]), lines[|lines| - 1])
  }

  /** The header is present: the opening line, and a closing marker after
      it. */
  ghost predicate HasHeader(le: LineEnding, s: string)
  {
    IsPrefix(MetaOpen(le), s) && Contains(s[|MetaOpen(le)|..], MetaClose(le))
  }

  /** `Parser::new` as a function of the text. */
  function Parse(le: LineEnding, s: string): Meta
  {
    var open := MetaOpen(le);
    if IsPrefix(open, s) then
      var rest := s[|open|..];
      match Find(rest, MetaClose(le))
      case Some(metaEnd) =>
        var st := LinesSettings(Split(rest[..metaEnd], '\n'));
        Meta(st.fullscreen, st.title, rest[metaEnd + 3..])
      case None => Meta(false, DefaultTitle, s)
    else Meta(false, DefaultTitle, s)
  }

  lemma LinesSettingsStep(lines: seq<string>, k: nat)
    requires k < |lines|
    ensures LinesSettings(lines[..k + 1]) == ApplyLine(LinesSettings(lines[..k]), lines[k])
  {
    assert lines[..k + 1][..k] == lines[..k];
  }

  /** `Parser::new`: strip the opening line, find the first closing marker,
      scan the lines between them (split on `\n` whatever the platform's
      line ending), and keep the text from the closing marker's line ending
      on as the body. */
  method NewParser(le: LineEnding, s: string) returns (p: Meta)
    ensures p == Parse(le, s)
  {
    var fullscreen := false;
    var title := DefaultTitle;
    var originStr := s;
    var open := MetaOpen(le);
    if IsPrefix(open, s) {
      var rest := s[|open|..];
      var found := Find(rest, MetaClose(le));
      if found.Some? {
        var metaEnd := found.value;
        var lines := Split(rest[..metaEnd], '\n');
        var k := 0;
        while k < |lines|
          invariant 0 <= k <= |lines|
          invariant LinesSettings(lines[..k]) == Settings(fullscreen, title)
        {
          LinesSettingsStep(lines, k);
          var parts := SplitOnce(lines[k], ':');
          if parts.key == "fullscreen" {
            if parts.value.Some? && Trim(parts.value.value) == "true" {
              fullscreen := true;
            }
          } else if parts.key == "title" {
            if parts.value.Some? {
              title := Trim(parts.value.value);
            }
          }
          k := k + 1;
        }
        assert lines[..k] == lines;
        originStr := rest[metaEnd + 3..];
      }
    }
    p := Meta(fullscreen, title, originStr);
  }

  // ---------------------------------------------------------------------------
  // What the header does
  // ---------------------------------------------------------------------------

  /** Without a complete header, the defaults apply and the whole text is
      the body. */
  lemma NoHeaderDefaults(le: LineEnding, s: string)
    requires !HasHeader(le, s)
    ensures Parse(le, s) == Meta(false, DefaultTitle, s)
  {
  }

  /** `Parser::new` once the closing marker is found at `metaEnd`. */
  lemma ParseFound(le: LineEnding, s: string, metaEnd: nat)
    requires IsPrefix(MetaOpen(le), s) && Find(s[|MetaOpen(le)|..], MetaClose(le)) == Some(metaEnd)
    ensures var rest := s[|MetaOpen(le)|..];
            var st := LinesSettings(Split(rest[..metaEnd], '\n'));
            Parse(le, s) == Meta(st.fullscreen, st.title, rest[metaEnd + 3..])
  {
  }

  /** Around a closing marker: the text before it, its `---`, and the rest
      from its line ending on. */
  lemma ClosingSplit(rest: string, e: string, m: nat)
    requires OccursAt(rest, "---" + e, m)
    ensures rest == rest[..m] + "---" + rest[m + 3..]
    ensures IsPrefix(e, rest[m + 3..])
  {
    var closing := rest[m..m + 3 + |e|];
    assert rest[m..m + 3] == closing[..3];
    assert rest[m + 3..][..|e|] == closing[3..];
    assert rest == rest[..m] + rest[m..m + 3] + rest[m + 3..];
  }

  /** With a header, the text is the opening line, the header text, `---`
      and the body; the body starts with the closing marker's line ending;
      the closing marker found is the first one after the opening line. */
  lemma HeaderLayout(le: LineEnding, s: string)
    requires HasHeader(le, s)
    ensures var rest := s[|MetaOpen(le)|..];
            var body := Parse(le, s).body;
            exists header: string ::
              && s == MetaOpen(le) + header + "---" + body
              && IsPrefix(EndingText(le), body)
              && forall j: nat :: j < |header| ==> !OccursAt(rest, MetaClose(le), j)
  {
    var open, close, e := MetaOpen(le), MetaClose(le), EndingText(le);
    var rest := s[|open|..];
    var metaEnd := Find(rest, close).value;
    ParseFound(le, s, metaEnd);
    var header, body := rest[..metaEnd], rest[metaEnd + 3..];
    ClosingSplit(rest, e, metaEnd);
    assert s == open + rest;
    Seqs.AppendAssoc(open, header + "---", body);
    Seqs.AppendAssoc(open, header, "---");
    assert s == open + header + "---" + body;
  }

  /** A header text without `-` holds no closing marker, so the marker
      right after it is the first. */
  lemma FirstCloseAfter(header: string, close: string, tail: string)
    requires '-' !in header && |close| > 0 && close[0] == '-'
    ensures Find(header + (close + tail), close) == Some(|header|)
  {
    var rest := header + (close + tail);
    assert rest[|header|..] == close + tail;
    assert OccursAt(rest, close, |header|) by {
      assert rest[|header|..|header| + |close|] == rest[|header|..][..|close|];
    }
    forall j: nat | j < |header|
      ensures !OccursAt(rest, close, j)
    {
      assert rest[j] == header[j];
    }
    FindFirst(rest, close, |header|);
  }

  /** The header round trip: a header text with no `-` in it, closed by the
      marker, yields the settings of its lines and leaves exactly the tail,
      from the closing line ending on, as the body. */
  lemma HeaderRoundTrip(le: LineEnding, header: string, tail: string)
    requires '-' !in header
    ensures var st := LinesSettings(Split(header, '\n'));
            Parse(le, MetaOpen(le) + header + MetaClose(le) + tail)
              == Meta(st.fullscreen, st.title, EndingText(le) + tail)
  {
    var open, close := MetaOpen(le), MetaClose(le);
    var s := open + header + close + tail;
    CloseShape(le);
    HeaderSlices(open, header, close, tail, 3);
    FirstCloseAfter(header, close, tail);
    ParseFound(le, s, |header|);
  }

  lemma CloseShape(le: LineEnding)
    ensures |MetaClose(le)| > 3 && MetaClose(le)[0] == '-' && MetaClose(le)[3..] == EndingText(le)
  {
  }

  /** Where the pieces of an opening line, a header, a closing marker and a
      tail sit in their concatenation. */
  lemma HeaderSlices(open: string, header: string, close: string, tail: string, n: nat)
    requires n <= |close|
    ensures var s := open + header + close + tail;
            && IsPrefix(open, s)
            && s[|open|..] == header + (close + tail)
            && (header + (close + tail))[..|header|] == header
            && (header + (close + tail))[|header| + n..] == close[n..] + tail
  {
    var s := open + header + close + tail;
    Seqs.AppendAssoc(open, header, close);
    Seqs.AppendAssoc(open + header, close, tail);
    Seqs.AppendAssoc(open, header + close, tail);
    Seqs.AppendAssoc(header, close, tail);
    assert s == open + (header + (close + tail));
    var rest := header + (close + tail);
    assert rest[|header|..] == close + tail;
    assert rest[|header| + n..] == (close + tail)[n..];
  }

  // ---------------------------------------------------------------------------
  // What the header lines do
  // ---------------------------------------------------------------------------

  /** Full screen is on exactly when some header line says
      `fullscreen: true`; a later line cannot turn it off. */
  lemma {:induction false} FullscreenIffSomeLine(lines: seq<string>)
    ensures LinesSettings(lines).fullscreen <==> Seqs.Any(lines, EnablesFullscreen)
    decreases |lines|
  {
    if lines != [] {
      FullscreenIffSomeLine(lines[..|lines| - 1]);
      Seqs.AnySnoc(lines, EnablesFullscreen);
    }
  }

  /** The last `title` line wins. */
  lemma {:induction false} LastTitleWins(lines: seq<string>, i: nat)
    requires i < |lines| && SetsTitle(lines[i])
    requires forall j :: i < j < |lines| ==> !SetsTitle(lines[j])
    ensures LinesSettings(lines).title == TitleOf(lines[i])
    decreases |lines|
  {
    var init := lines[..|lines| - 1];
    if i < |lines| - 1 {
      forall j | i < j < |init|
        ensures !SetsTitle(init[j])
      {
        assert init[j] == lines[j];
      }
      LastTitleWins(init, i);
      TitleStep(lines);
      assert init[i] == lines[i];
    } else {
      TitleStep(lines);
    }
  }

  /** The title after the lines is the last line's, if that line sets one,
      and otherwise the title before it. */
  lemma TitleStep(lines: seq<string>)
    requires lines != []
    ensures var last := lines[|lines| - 1];
            LinesSettings(lines).title
              == if SetsTitle(last) then TitleOf(last) else LinesSettings(lines[..|lines| - 1]).title
  {
  }

  /** Without a `title` line, the default title stays. */
  lemma {:induction false} DefaultTitleStays(lines: seq<string>)
    requires forall j :: 0 <= j < |lines| ==> !SetsTitle(lines[j])
    ensures LinesSettings(lines).title == DefaultTitle
    decreases |lines|
  {
    if lines != [] {
      var init := lines[..|lines| - 1];
      forall j | 0 <= j < |init|
        ensures !SetsTitle(init[j])
      {
        assert init[j] == lines[j];
      }
      DefaultTitleStays(init);
    }
  }

  /** A value keeps every colon after the first: `title: a:b` sets `a:b`. */
  lemma ValueKeepsColons(st: Settings, value: string)
    ensures ApplyLine(st, "title:" + value).title == Trim(value)
  {
    var line := "title:" + value;
    assert line == "title" + [':'] + value;
    assert ':' !in "title";
    SplitOnceAt("title", value);
  }

  lemma SplitOnceAt(key: string, value: string)
    requires ':' !in key
    ensures SplitOnce(key + [':'] + value, ':') == KeyValue(key, Some(value))
    decreases |key|
  {
    if key != [] {
      assert (key + [':'] + value)[1..] == key[1..] + [':'] + value;
      SplitOnceAt(key[1..], value);
    }
  }

  /** A header written with CRLF line endings splits on `\n` into lines
      that keep their `\r`; that `\r` changes no setting. */
  lemma CarriageReturnIgnored(st: Settings, line: string)
    ensures ApplyLine(st, line + "\r") == ApplyLine(st, line)
  {
    if ':' in line {
      var kv := SplitOnce(line, ':');
      CarriageReturnKeepsKey(line, kv);
      TrimDropsTrailingWhitespace(kv.value.value, "\r");
      SameEntry(st, line + "\r", line);
    } else {
      assert ':' !in line + "\r";
      NoColonNoEffect(st, line);
      NoColonNoEffect(st, line + "\r");
    }
  }

  /** A line without a colon sets nothing. */
  lemma NoColonNoEffect(st: Settings, line: string)
    requires ':' !in line
    ensures ApplyLine(st, line) == st
  {
  }

  /** Two lines with the same key and the same trimmed value have the same
      effect. */
  lemma SameEntry(st: Settings, a: string, b: string)
    requires SplitOnce(a, ':').key == SplitOnce(b, ':').key
    requires SplitOnce(a, ':').value.Some? && SplitOnce(b, ':').value.Some?
    requires Trim(SplitOnce(a, ':').value.value) == Trim(SplitOnce(b, ':').value.value)
    ensures ApplyLine(st, a) == ApplyLine(st, b)
  {
  }

  lemma CarriageReturnKeepsKey(line: string, kv: KeyValue)
    requires kv == SplitOnce(line, ':') && kv.value.Some?
    ensures SplitOnce(line + "\r", ':') == KeyValue(kv.key, Some(kv.value.value + "\r"))
  {
    assert line + "\r" == kv.key + [':'] + (kv.value.value + "\r");
    SplitOnceAt(kv.key, kv.value.value + "\r");
  }

  /** The same header lines with and without their `\r` give the same
      settings. */
  lemma {:induction false} CrLfHeaderSameSettings(lines: seq<string>)
    ensures LinesSettings(seq(|lines|, i requires 0 <= i < |lines| => lines[i] + "\r")) == LinesSettings(lines)
    decreases |lines|
  {
    if lines != [] {
      var crlf := seq(|lines|, i requires 0 <= i < |lines| => lines[i] + "\r");
      var init := lines[..|lines| - 1];
      assert crlf[..|crlf| - 1] == seq(|init|, i requires 0 <= i < |init| => init[i] + "\r");
      CrLfHeaderSameSettings(init);
      CarriageReturnIgnored(LinesSettings(init), lines[|lines| - 1]);
    }
  }
}
