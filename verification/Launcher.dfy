/** The generated block in the user's menu file: inserted, replaced, removed. */
module Launcher {
  import opened Prelude

  const TITLE := " omarchy-whatsapp" + " launcher chats"
  const BEGIN := "  // BEGIN" + TITLE + " (generated)"
  const END := "  // END" + TITLE

  /** The two marker lines around the generated block. */
  datatype Marks = Marks(begin: string, end: string)

  const MENU := Marks(BEGIN, END)

  datatype MenuError = EndWithoutBegin | SecondBlock | BeginWithoutEnd | SecondEnd | NotAnObject

  datatype Span = Span(start: nat, end: nat)

  // --------------------------------------------------- searching text

  predicate At(text: string, pat: string, i: int) {
    0 <= i && i + |pat| <= |text| && forall k :: 0 <= k < |pat| ==> text[i + k] == pat[k]
  }

  /** `text[from..].find(pat)`, as an index into the text. */
  function Find(text: string, pat: string, from: nat): (o: Option<nat>)
    requires from <= |text|
    ensures o.Some? ==> from <= o.value && o.value + |pat| <= |text|
    decreases |text| - from
  {
    if At(text, pat, from) then Some(from)
    else if from == |text| then None
    else Find(text, pat, from + 1)
  }

  /** It is the first occurrence, if there is one. */
  lemma {:induction false} FindIsFirst(text: string, pat: string, from: nat)
    requires from <= |text|
    ensures var o := Find(text, pat, from);
      && (o.Some? ==> At(text, pat, o.value) && forall j :: from <= j < o.value ==> !At(text, pat, j))
      && (o.None? ==> forall j :: from <= j ==> !At(text, pat, j))
    decreases |text| - from
  {
    if !At(text, pat, from) && from < |text| { FindIsFirst(text, pat, from + 1); }
  }

  /** `text[..to].rfind('\n')`. */
  function LastNewline(text: string, to: nat): (o: Option<nat>)
    requires to <= |text|
    ensures o.Some? ==> o.value < to && text[o.value] == '\n' && forall j :: o.value < j < to ==> text[j] != '\n'
    ensures o.None? ==> forall j :: 0 <= j < to ==> text[j] != '\n'
  {
    if to == 0 then None else if text[to - 1] == '\n' then Some(to - 1) else LastNewline(text, to - 1)
  }

  // --------------------------------------------------- generated_block_span

  function BlockSpan(m: Marks, text: string): Result<Option<Span>, MenuError> {
    match Find(text, m.begin, 0)
    case None =>
      if Find(text, m.end, 0).Some? then Err(EndWithoutBegin) else Ok(None)
    case Some(begin) =>
      if Find(text, m.begin, begin + |m.begin|).Some? then Err(SecondBlock)
      else
        match Find(text, m.end, begin + |m.begin|)
        case None => Err(BeginWithoutEnd)
        case Some(end) =>
          if Find(text, m.end, end + |m.end|).Some? then Err(SecondEnd)
          else Ok(Some(Span(LastNewline(text, begin).GetOr(begin), end + |m.end|)))
  }

  // --------------------------------------------------- root_object_open

  /** Where scanning stands after the comment that starts at i, or at the end of text. */
  function SkipLine(text: string, i: nat): (j: nat)
    requires i <= |text|
    ensures i <= j <= |text| && (j < |text| ==> text[j] == '\n')
    ensures forall k :: i <= k < j ==> text[k] != '\n'
    decreases |text| - i
  {
    if i == |text| || text[i] == '\n' then i else SkipLine(text, i + 1)
  }

  predicate Blank(c: char) {
    c == ' ' || c == '\t' || c == '\r' || c == '\n'
  }

  function RootFrom(text: string, i: nat): (o: Option<nat>)
    requires i <= |text|
    ensures o.Some? ==> i <= o.value < |text| && text[o.value] == '{'
    decreases |text| - i
  {
    if i == |text| then None
    else if Blank(text[i]) then RootFrom(text, i + 1)
    else if text[i] == '/' && i + 1 < |text| && text[i + 1] == '/' then RootFrom(text, SkipLine(text, i + 2))
    else if text[i] == '{' then Some(i)
    else None
  }

  lemma {:induction false} SkipShift(head: string, rest: string, i: nat)
    requires i <= |rest|
    ensures SkipLine(head + rest, |head| + i) == |head| + SkipLine(rest, i)
    decreases |rest| - i
  {
    if i < |rest| && rest[i] != '\n' { SkipShift(head, rest, i + 1); }
  }

  function Shifted(o: Option<nat>, n: nat): Option<nat> {
    if o.None? then None else Some(o.value + n)
  }

  lemma {:induction false} RootShift(head: string, rest: string, i: nat)
    requires i <= |rest|
    ensures RootFrom(head + rest, |head| + i) == Shifted(RootFrom(rest, i), |head|)
    decreases |rest| - i
  {
    var text := head + rest;
    if i < |rest| {
      assert text[|head| + i] == rest[i];
      if Blank(rest[i]) {
        RootShift(head, rest, i + 1);
      } else if rest[i] == '/' && i + 1 < |rest| && rest[i + 1] == '/' {
        assert text[|head| + i + 1] == rest[i + 1];
        SkipShift(head, rest, i + 2);
        RootShift(head, rest, SkipLine(rest, i + 2));
      }
    }
  }

  /** The root brace is where the text begins, once blanks are passed over. */
  lemma RootAfterBlank(c: char, rest: string)
    ensures c in " \t\r\n" ==> RootFrom([c] + rest, 0) == Shifted(RootFrom(rest, 0), 1)
    ensures c == '{' ==> RootFrom([c] + rest, 0) == Some(0)
    ensures c !in " \t\r\n{/" ==> RootFrom([c] + rest, 0) == None
    ensures RootFrom("", 0) == None
  {
    if Blank(c) { RootShift([c], rest, 0); }
  }

  lemma {:induction false} SkipsLine(text: string, line: string, i: nat, k: nat)
    requires NoNewline(line) && k <= |line| && i + |line| <= |text| && text[i..i + |line|] == line
    requires i + |line| == |text| || text[i + |line|] == '\n'
    ensures SkipLine(text, i + k) == i + |line|
    decreases |line| - k
  {
    if k < |line| {
      assert text[i + k] == text[i..i + |line|][k];
      SkipsLine(text, line, i, k + 1);
    }
  }

  /** Comments are passed over to the end of their line. */
  lemma RootAfterComment(line: string, rest: string)
    requires NoNewline(line)
    ensures RootFrom("//" + line + "\n" + rest, 0) == Shifted(RootFrom(rest, 0), |line| + 3)
    ensures RootFrom("//" + line, 0) == None
  {
    var comment := "//" + line;
    var text := comment + "\n" + rest;
    assert text == (comment + "\n") + rest && text[2..2 + |line|] == line && comment[2..2 + |line|] == line;
    SkipsLine(text, line, 2, 0);
    SkipsLine(comment, line, 2, 0);
    assert text[|line| + 2] == '\n';
    RootShift(comment + "\n", rest, 0);
  }

  method RootObjectOpen(text: string) returns (open: Option<nat>)
    ensures open == RootFrom(text, 0)
  {
    var index := 0;
    while index < |text|
      invariant 0 <= index <= |text| && RootFrom(text, index) == RootFrom(text, 0)
      decreases |text| - index
    {
      if Blank(text[index]) {
        index := index + 1;
      } else if text[index] == '/' && index + 1 < |text| && text[index + 1] == '/' {
        ghost var comment := index + 2;
        index := index + 2;
        while index < |text| && text[index] != '\n'
          invariant comment <= index <= |text| && SkipLine(text, index) == SkipLine(text, comment)
        {
          index := index + 1;
        }
      } else if text[index] == '{' {
        return Some(index);
      } else {
        return None;
      }
    }
    open := None;
  }

  // --------------------------------------------------- editing

  function Replaced(text: string, span: Span, filler: string): string
    requires span.start <= span.end <= |text|
  {
    text[..span.start] + filler + text[span.end..]
  }

  lemma SpanFits(m: Marks, text: string)
    ensures BlockSpan(m, text).Ok? && BlockSpan(m, text).value.Some? ==>
      BlockSpan(m, text).value.value.start <= BlockSpan(m, text).value.value.end <= |text|
  {
  }

  function Upsert(m: Marks, text: string, block: string): Result<string, MenuError> {
    SpanFits(m, text);
    match BlockSpan(m, text)
    case Err(e) => Err(e)
    case Ok(Some(span)) => Ok(Replaced(text, span, "\n" + block))
    case Ok(None) =>
      match RootFrom(text, 0)
      case None => Err(NotAnObject)
      case Some(open) => Ok(text[..open + 1] + "\n" + block + text[open + 1..])
  }

  /** The pure part of `remove_launcher_menu`. */
  function Remove(m: Marks, text: string): Result<string, MenuError> {
    SpanFits(m, text);
    match BlockSpan(m, text)
    case Err(e) => Err(e)
    case Ok(None) => Ok(text)
    case Ok(Some(span)) => Ok(Replaced(text, span, ""))
  }

  method UpsertMenuBlock(m: Marks, existing: string, block: string) returns (updated: Result<string, MenuError>)
    ensures updated == Upsert(m, existing, block)
  {
    var span := BlockSpan(m, existing);
    if span.Err? { return Err(span.error); }
    if span.value.Some? {
      SpanFits(m, existing);
      var buffer := existing[..span.value.value.start] + ("\n" + block) + existing[span.value.value.end..];
      return Ok(buffer);
    }
    var open := RootObjectOpen(existing);
    if open.None? {
      return Err(NotAnObject);
    }
    var at := open.value + 1;
    updated := Ok(existing[..at] + "\n" + block + existing[at..]);
  }

  method RemoveLauncherMenu(m: Marks, existing: string) returns (updated: Result<string, MenuError>)
    ensures updated == Remove(m, existing)
  {
    var span := BlockSpan(m, existing);
    if span.Err? { return Err(span.error); }
    if span.value.None? { return Ok(existing); }
    SpanFits(m, existing);
    updated := Ok(existing[..span.value.value.start] + existing[span.value.value.end..]);
    assert existing[..span.value.value.start] + "" + existing[span.value.value.end..] == updated.value;
  }

  // --------------------------------------------------- rendering

  function Lines(entries: seq<string>): string {
    if entries == [] then "" else Lines(entries[..|entries| - 1]) + entries[|entries| - 1] + "\n"
  }

  /** The begin marker, one line an entry, the end marker. */
  function Render(m: Marks, entries: seq<string>): string {
    m.begin + "\n" + Lines(entries) + m.end
  }

  method RenderMenuBlock(m: Marks, entries: seq<string>) returns (block: string)
    ensures block == Render(m, entries)
  {
    block := m.begin + "\n";
    for i := 0 to |entries|
      invariant block == m.begin + "\n" + Lines(entries[..i])
    {
      assert entries[..i + 1][..i] == entries[..i];
      block := block + entries[i] + "\n";
    }
    assert entries[..|entries|] == entries;
    block := block + m.end;
  }

  // --------------------------------------------------- the markers

  predicate NoNewline(s: string) {
    forall i :: 0 <= i < |s| ==> s[i] != '\n'
  }

  /** What the seams rest on: no newline, two leading spaces, and no later place where
      two spaces could begin. */
  predicate Borderless(m: string) {
    && NoNewline(m) && |m| > 5 && m[0] == ' ' && m[1] == ' '
    && forall i :: 1 <= i < |m| && m[i] == ' ' ==> i + 1 < |m| && m[i + 1] != ' '
  }

  /** A text that holds neither newlines nor two spaces in a row, and ends in neither. */
  predicate Calm(s: string) {
    NoNewline(s) && s != "" && s[|s| - 1] != ' ' && forall i :: 0 <= i < |s| - 1 && s[i] == ' ' ==> s[i + 1] != ' '
  }

  lemma CalmJoin(a: string, b: string)
    requires Calm(a) && Calm(b)
    ensures Calm(a + b)
  {
    var s := a + b;
    forall i | 0 <= i < |s| - 1 && s[i] == ' ' ensures s[i + 1] != ' ' {
      if i + 1 < |a| { assert s[i] == a[i] && s[i + 1] == a[i + 1]; }
      if i >= |a| { assert s[i] == b[i - |a|] && s[i + 1] == b[i + 1 - |a|]; }
    }
  }

  lemma Pieces()
    ensures Calm(" omarchy-whatsapp") && Calm(" launcher chats") && Calm(" (generated)")
    ensures Calm("// BEGIN") && Calm("// END")
    ensures "  // BEGIN" == "  " + "// BEGIN" && "  // END" == "  " + "// END"
    ensures "// BEGIN"[0] == '/' && "// END"[0] == '/' && "// BEGIN"[3] == 'B' && "// END"[3] == 'E'
  {
  }

  lemma Indented(m: string, c: string)
    requires m == "  " + c && Calm(c) && |c| > 3 && c[0] == '/'
    ensures Borderless(m) && m[5] == c[3]
  {
    assert forall i :: 2 <= i < |m| ==> m[i] == c[i - 2];
  }

  /** Markers that cannot straddle a seam, overlap, or be taken for one another. */
  predicate Separated(m: Marks) {
    Borderless(m.begin) && Borderless(m.end) && m.begin[5] != m.end[5]
  }

  /** The menu's own markers are of this kind. */
  lemma MenuMarksSeparated()
    ensures Separated(MENU)
  {
    Pieces();
    CalmJoin(" omarchy-whatsapp", " launcher chats");
    CalmJoin("// BEGIN", TITLE);
    CalmJoin("// BEGIN" + TITLE, " (generated)");
    CalmJoin("// END", TITLE);
    assert BEGIN == "  " + ("// BEGIN" + TITLE + " (generated)");
    assert END == "  " + ("// END" + TITLE);
    Indented(BEGIN, "// BEGIN" + TITLE + " (generated)");
    Indented(END, "// END" + TITLE);
  }

  // --------------------------------------------------- where markers can occur

  ghost predicate Absent(text: string, pat: string) {
    forall i :: !At(text, pat, i)
  }

  /** Neither marker occurs. */
  ghost predicate Clean(m: Marks, text: string) {
    Absent(text, m.begin) && Absent(text, m.end)
  }

  predicate EndsLine(s: string) {
    s != "" && s[|s| - 1] == '\n'
  }

  function Framed(m: Marks, interior: string): string {
    m.begin + interior + m.end
  }

  /** A text around one block. */
  function Around(m: Marks, before: string, interior: string, after: string): string {
    before + "\n" + Framed(m, interior) + after
  }

  /** A text's own part holds exactly the occurrences that lie within it. */
  lemma AtShift(text: string, from: nat, to: nat, pat: string, i: int)
    requires from <= to <= |text|
    ensures At(text[from..to], pat, i - from) <==> from <= i && i + |pat| <= to && At(text, pat, i)
  {
    var part := text[from..to];
    if At(part, pat, i - from) {
      forall k | 0 <= k < |pat| ensures text[i + k] == pat[k] { assert part[i - from + k] == pat[k]; }
    }
    if from <= i && i + |pat| <= to && At(text, pat, i) {
      forall k | 0 <= k < |pat| ensures part[i - from + k] == pat[k] { assert text[i + k] == pat[k]; }
    }
  }

  lemma AtChar(text: string, pat: string, i: int, k: int)
    requires At(text, pat, i) && 0 <= k < |pat|
    ensures text[i + k] == pat[k]
  {
  }

  /** No marker straddles a newline. */
  lemma NewlineBreaks(text: string, pat: string, i: int, n: int)
    requires At(text, pat, i) && NoNewline(pat) && 0 <= n < |text| && text[n] == '\n'
    ensures !(i <= n < i + |pat|)
  {
    if i <= n < i + |pat| { AtChar(text, pat, i, n - i); }
  }

  /** No marker begins inside another. */
  lemma NoOverlap(text: string, marker: string, p: int, pat: string, i: int)
    requires At(text, marker, p) && At(text, pat, i) && Borderless(marker) && Borderless(pat)
    ensures !(p < i < p + |marker|)
  {
    AtChar(text, pat, i, 0);
    AtChar(text, pat, i, 1);
    if p < i < p + |marker| {
      AtChar(text, marker, p, i - p);
      if i + 1 < p + |marker| { AtChar(text, marker, p, i + 1 - p); }
    }
  }

  /** The two markers differ where they would coincide. */
  lemma NotBoth(m: Marks, text: string, i: int)
    requires Separated(m)
    ensures !(At(text, m.begin, i) && At(text, m.end, i))
  {
    if At(text, m.begin, i) && At(text, m.end, i) {
      AtChar(text, m.begin, i, 5);
      AtChar(text, m.end, i, 5);
    }
  }

  /** The parts of a text around one block, by position. */
  predicate LaidOut(m: Marks, text: string, before: string, interior: string, after: string) {
    var b := |before| + 1;
    var e := b + |m.begin| + |interior|;
    && |text| == e + |m.end| + |after|
    && text[0..|before|] == before && text[b - 1] == '\n' && text[b..b + |m.begin|] == m.begin
    && text[b + |m.begin|..e] == interior && text[e..e + |m.end|] == m.end && text[e + |m.end|..|text|] == after
  }

  lemma PartAt(text: string, x: string, part: string, y: string)
    requires text == x + part + y
    ensures text[|x|..|x| + |part|] == part && text[..|x|] == x && text[|x| + |part|..] == y
  {
  }

  lemma AroundRegrouped(m: Marks, before: string, interior: string, after: string)
    ensures var text := Around(m, before, interior, after);
      && text == before + "\n" + (m.begin + interior + m.end + after)
      && text == (before + "\n") + m.begin + (interior + m.end + after)
      && text == (before + "\n" + m.begin) + interior + (m.end + after)
      && text == (before + "\n" + m.begin + interior) + m.end + after
  {
    var text := Around(m, before, interior, after);
    assert text == (before + "\n" + m.begin + interior) + m.end + after;
    assert text == (before + "\n" + m.begin) + interior + (m.end + after);
    assert text == (before + "\n") + m.begin + (interior + m.end + after);
  }

  lemma AroundIsLaidOut(m: Marks, before: string, interior: string, after: string)
    ensures LaidOut(m, Around(m, before, interior, after), before, interior, after)
  {
    hide Around;
    var text := Around(m, before, interior, after);
    AroundRegrouped(m, before, interior, after);
    PartAt(text, before, "\n", m.begin + interior + m.end + after);
    PartAt(text, before + "\n", m.begin, interior + m.end + after);
    PartAt(text, before + "\n" + m.begin, interior, m.end + after);
    PartAt(text, before + "\n" + m.begin + interior, m.end, after);
  }

  lemma BlockMarkers(m: Marks, text: string, before: string, interior: string, after: string)
    requires LaidOut(m, text, before, interior, after)
    ensures At(text, m.begin, |before| + 1)
    ensures At(text, m.end, |before| + 1 + |m.begin| + |interior|)
  {
    var b := |before| + 1;
    var e := b + |m.begin| + |interior|;
    AtShift(text, b, b + |m.begin|, m.begin, b);
    AtShift(text, e, e + |m.end|, m.end, e);
  }

  /** A marker does not straddle the line breaks around the block nor its own markers. */
  lemma MarkerWhere(m: Marks, text: string, before: string, interior: string, after: string, pat: string, i: int)
    requires Separated(m) && LaidOut(m, text, before, interior, after)
    requires EndsLine(interior) && (pat == m.begin || pat == m.end) && At(text, pat, i)
    ensures var b := |before| + 1; var e := b + |m.begin| + |interior|;
      || i + |pat| <= b - 1
      || (i == b && pat == m.begin)
      || (b + |m.begin| <= i && i + |pat| <= e)
      || (i == e && pat == m.end)
      || i >= e + |m.end|
  {
    var b := |before| + 1;
    var e := b + |m.begin| + |interior|;
    BlockMarkers(m, text, before, interior, after);
    assert text[e - 1] == text[b + |m.begin|..e][|interior| - 1];
    NewlineBreaks(text, pat, i, b - 1);
    NewlineBreaks(text, pat, i, e - 1);
    NoOverlap(text, m.begin, b, pat, i);
    NoOverlap(text, m.end, e, pat, i);
    NotBoth(m, text, i);
  }

  /** Every marker in a text around one block lies in the text before, is one of the two
      block markers, lies inside the interior, or lies in the text after. */
  lemma MarkerPlaces(m: Marks, text: string, before: string, interior: string, after: string, pat: string, i: int)
    requires Separated(m) && LaidOut(m, text, before, interior, after)
    requires EndsLine(interior) && (pat == m.begin || pat == m.end) && At(text, pat, i)
    ensures var b := |before| + 1; var e := b + |m.begin| + |interior|;
      || At(before, pat, i)
      || (i == b && pat == m.begin)
      || (i >= b + |m.begin| && At(interior, pat, i - b - |m.begin|))
      || (i == e && pat == m.end)
      || (i >= e + |m.end| && At(after, pat, i - e - |m.end|))
  {
    var b := |before| + 1;
    var e := b + |m.begin| + |interior|;
    MarkerWhere(m, text, before, interior, after, pat, i);
    if i + |pat| <= b - 1 {
      AtShift(text, 0, |before|, pat, i);
    } else if b + |m.begin| <= i && i + |pat| <= e {
      AtShift(text, b + |m.begin|, e, pat, i);
    } else if i >= e + |m.end| {
      AtShift(text, e + |m.end|, |text|, pat, i);
    }
  }

  lemma InteriorMarker(m: Marks, text: string, before: string, interior: string, after: string, pat: string, i: int)
    requires LaidOut(m, text, before, interior, after) && At(interior, pat, i)
    ensures At(text, pat, |before| + 1 + |m.begin| + i)
  {
    var from := |before| + 1 + |m.begin|;
    AtShift(text, from, from + |interior|, pat, from + i);
  }

  lemma BeginPlace(m: Marks, text: string, before: string, interior: string, after: string, i: int)
    requires Separated(m) && LaidOut(m, text, before, interior, after)
    requires EndsLine(interior) && Absent(before, m.begin) && Clean(m, after) && At(text, m.begin, i)
    ensures i > |before| && (i > |before| + 1 ==> !Absent(interior, m.begin))
  {
    MarkerPlaces(m, text, before, interior, after, m.begin, i);
  }

  lemma SpanStart(m: Marks, text: string, before: string, interior: string, after: string)
    requires LaidOut(m, text, before, interior, after)
    ensures LastNewline(text, |before| + 1) == Some(|before|)
  {
  }

  /** The begin marker is first met where it was written. */
  lemma BeginFound(m: Marks, text: string, before: string, interior: string, after: string)
    requires Separated(m) && LaidOut(m, text, before, interior, after)
    requires EndsLine(interior) && Absent(before, m.begin) && Clean(m, after)
    ensures Find(text, m.begin, 0) == Some(|before| + 1)
    ensures Absent(interior, m.begin) ==> Find(text, m.begin, |before| + 1 + |m.begin|) == None
  {
    BlockMarkers(m, text, before, interior, after);
    forall i | At(text, m.begin, i) ensures i > |before| && (i > |before| + 1 ==> !Absent(interior, m.begin)) {
      BeginPlace(m, text, before, interior, after, i);
    }
    FindIsFirst(text, m.begin, 0);
    FindIsFirst(text, m.begin, |before| + 1 + |m.begin|);
  }

  lemma EndPlace(m: Marks, text: string, before: string, interior: string, after: string, i: int)
    requires Separated(m) && LaidOut(m, text, before, interior, after)
    requires EndsLine(interior) && Clean(m, after) && At(text, m.end, i) && i >= |before| + 1 + |m.begin|
    ensures var e := |before| + 1 + |m.begin| + |interior|;
      i <= e && (i < e ==> !Absent(interior, m.end))
  {
    MarkerPlaces(m, text, before, interior, after, m.end, i);
  }

  /** The end marker is met where it was written, unless the interior holds one. */
  lemma EndFound(m: Marks, text: string, before: string, interior: string, after: string)
    requires Separated(m) && LaidOut(m, text, before, interior, after)
    requires EndsLine(interior) && Clean(m, after)
    ensures var from := |before| + 1 + |m.begin|;
      Absent(interior, m.end) ==> Find(text, m.end, from) == Some(from + |interior|)
    ensures Find(text, m.end, |before| + 1 + |m.begin| + |interior| + |m.end|) == None
  {
    EndFoundFirst(m, text, before, interior, after);
    EndFoundLast(m, text, before, interior, after);
  }

  lemma EndFoundFirst(m: Marks, text: string, before: string, interior: string, after: string)
    requires Separated(m) && LaidOut(m, text, before, interior, after)
    requires EndsLine(interior) && Clean(m, after)
    ensures var from := |before| + 1 + |m.begin|;
      Absent(interior, m.end) ==> Find(text, m.end, from) == Some(from + |interior|)
  {
    var from := |before| + 1 + |m.begin|;
    BlockMarkers(m, text, before, interior, after);
    FindIsFirst(text, m.end, from);
    if Absent(interior, m.end) && Find(text, m.end, from).Some? {
      EndPlace(m, text, before, interior, after, Find(text, m.end, from).value);
    }
  }

  lemma EndFoundLast(m: Marks, text: string, before: string, interior: string, after: string)
    requires Separated(m) && LaidOut(m, text, before, interior, after)
    requires EndsLine(interior) && Clean(m, after)
    ensures Find(text, m.end, |before| + 1 + |m.begin| + |interior| + |m.end|) == None
  {
    var past := |before| + 1 + |m.begin| + |interior| + |m.end|;
    FindIsFirst(text, m.end, past);
    if Find(text, m.end, past).Some? {
      EndPlace(m, text, before, interior, after, Find(text, m.end, past).value);
    }
  }

  /** What the four searches of `generated_block_span` yield over an unmarked interior. */
  ghost predicate Searches(m: Marks, text: string, begin: nat, end: nat) {
    && begin + |m.begin| <= end && end + |m.end| <= |text|
    && Find(text, m.begin, 0) == Some(begin) && Find(text, m.begin, begin + |m.begin|) == None
    && Find(text, m.end, begin + |m.begin|) == Some(end) && Find(text, m.end, end + |m.end|) == None
  }

  lemma SpanOf(m: Marks, text: string, begin: nat, end: nat, start: nat)
    requires Searches(m, text, begin, end) && LastNewline(text, begin) == Some(start)
    ensures BlockSpan(m, text) == Ok(Some(Span(start, end + |m.end|)))
  {
  }

  lemma CleanSearches(m: Marks, before: string, interior: string, after: string)
    requires Separated(m)
    requires EndsLine(interior) && Absent(before, m.begin) && Clean(m, after) && Clean(m, interior)
    ensures Searches(m, Around(m, before, interior, after), |before| + 1, |before| + 1 + |m.begin| + |interior|)
    ensures LastNewline(Around(m, before, interior, after), |before| + 1) == Some(|before|)
  {
    var text := Around(m, before, interior, after);
    AroundIsLaidOut(m, before, interior, after);
    BeginFound(m, text, before, interior, after);
    EndFound(m, text, before, interior, after);
    SpanStart(m, text, before, interior, after);
  }

  /** Over an interior without markers the search finds the block as it was written. */
  lemma CleanBlockFound(m: Marks, before: string, interior: string, after: string)
    requires Separated(m)
    requires EndsLine(interior) && Absent(before, m.begin) && Clean(m, after) && Clean(m, interior)
    ensures BlockSpan(m, Around(m, before, interior, after))
      == Ok(Some(Span(|before|, |before| + 1 + |m.begin| + |interior| + |m.end|)))
  {
    CleanSearches(m, before, interior, after);
    SpanOf(m, Around(m, before, interior, after), |before| + 1, |before| + 1 + |m.begin| + |interior|, |before|);
  }

  /** The two ways the search gives up on a block it found the beginning of. */
  ghost predicate Confused(m: Marks, text: string, begin: nat, end: nat) {
    && begin + |m.begin| <= |text| && end + |m.end| <= |text| && Find(text, m.begin, 0) == Some(begin)
    && (Find(text, m.begin, begin + |m.begin|).Some?
        || (Find(text, m.end, begin + |m.begin|) == Some(end) && Find(text, m.end, end + |m.end|).Some?))
  }

  lemma ConfusedFails(m: Marks, text: string, begin: nat, end: nat)
    requires Confused(m, text, begin, end)
    ensures BlockSpan(m, text).Err?
  {
  }

  /** Of two occurrences of a borderless marker the first is found, and then another. */
  lemma FirstOfTwo(text: string, pat: string, from: nat, a: int, b: int) returns (first: nat)
    requires Borderless(pat) && from <= a < b && b + |pat| <= |text| && At(text, pat, a) && At(text, pat, b)
    ensures Find(text, pat, from) == Some(first) && first + |pat| <= |text| && Find(text, pat, first + |pat|).Some?
  {
    FindIsFirst(text, pat, from);
    first := Find(text, pat, from).value;
    NoOverlap(text, pat, first, pat, b);
    FindIsFirst(text, pat, first + |pat|);
  }

  lemma TwoEnds(m: Marks, text: string, before: string, interior: string, after: string, i: int)
    requires Separated(m) && LaidOut(m, text, before, interior, after) && At(interior, m.end, i)
    ensures var from := |before| + 1 + |m.begin|;
      && from <= from + i < from + |interior| && from + |interior| + |m.end| <= |text|
      && At(text, m.end, from + i) && At(text, m.end, from + |interior|)
  {
    BlockMarkers(m, text, before, interior, after);
    InteriorMarker(m, text, before, interior, after, m.end, i);
  }

  lemma BeginTwice(m: Marks, text: string, before: string, interior: string, after: string, i: int)
    requires LaidOut(m, text, before, interior, after) && At(interior, m.begin, i)
    ensures Find(text, m.begin, |before| + 1 + |m.begin|).Some?
  {
    InteriorMarker(m, text, before, interior, after, m.begin, i);
    FindIsFirst(text, m.begin, |before| + 1 + |m.begin|);
  }

  lemma BeginInside(m: Marks, before: string, interior: string, after: string, i: int)
    requires Separated(m)
    requires EndsLine(interior) && Absent(before, m.begin) && Clean(m, after) && At(interior, m.begin, i)
    ensures Confused(m, Around(m, before, interior, after), |before| + 1, 0)
  {
    var text := Around(m, before, interior, after);
    AroundIsLaidOut(m, before, interior, after);
    BeginFound(m, text, before, interior, after);
    BeginTwice(m, text, before, interior, after, i);
  }

  lemma EndInside(m: Marks, before: string, interior: string, after: string, i: int)
    requires Separated(m)
    requires EndsLine(interior) && Absent(before, m.begin) && Clean(m, after) && At(interior, m.end, i)
    ensures var text, from := Around(m, before, interior, after), |before| + 1 + |m.begin|;
      && Find(text, m.begin, 0) == Some(|before| + 1)
      && 0 <= i < |interior| && from + |interior| + |m.end| <= |text|
      && At(text, m.end, from + i) && At(text, m.end, from + |interior|)
  {
    var text := Around(m, before, interior, after);
    AroundIsLaidOut(m, before, interior, after);
    BeginFound(m, text, before, interior, after);
    TwoEnds(m, text, before, interior, after, i);
  }

  lemma TwoEndsConfuse(m: Marks, text: string, begin: nat, a: int, b: int) returns (end: nat)
    requires Separated(m) && Find(text, m.begin, 0) == Some(begin)
    requires begin + |m.begin| <= a < b && b + |m.end| <= |text| && At(text, m.end, a) && At(text, m.end, b)
    ensures Confused(m, text, begin, end)
  {
    end := FirstOfTwo(text, m.end, begin + |m.begin|, a, b);
  }

  lemma EndsConfuse(m: Marks, before: string, interior: string, after: string, i: int) returns (end: nat)
    requires Separated(m) && EndsLine(interior) && Absent(before, m.begin) && Clean(m, after)
    requires Absent(interior, m.begin) && At(interior, m.end, i)
    ensures Confused(m, Around(m, before, interior, after), |before| + 1, end)
  {
    var from := |before| + 1 + |m.begin|;
    EndInside(m, before, interior, after, i);
    end := TwoEndsConfuse(m, Around(m, before, interior, after), |before| + 1, from + i, from + |interior|);
  }

  lemma MarkedSearches(m: Marks, before: string, interior: string, after: string) returns (end: nat)
    requires Separated(m)
    requires EndsLine(interior) && Absent(before, m.begin) && Clean(m, after) && !Clean(m, interior)
    ensures Confused(m, Around(m, before, interior, after), |before| + 1, end)
  {
    if Absent(interior, m.begin) {
      var i :| At(interior, m.end, i);
      end := EndsConfuse(m, before, interior, after, i);
    } else {
      var i :| At(interior, m.begin, i);
      BeginInside(m, before, interior, after, i);
      end := 0;
    }
  }

  /** A marker inside the interior makes the search fail. */
  lemma MarkedBlockLost(m: Marks, before: string, interior: string, after: string)
    requires Separated(m)
    requires EndsLine(interior) && Absent(before, m.begin) && Clean(m, after) && !Clean(m, interior)
    ensures BlockSpan(m, Around(m, before, interior, after)).Err?
  {
    var end := MarkedSearches(m, before, interior, after);
    ConfusedFails(m, Around(m, before, interior, after), |before| + 1, end);
  }

  // --------------------------------------------------- round trips

  lemma PartAbsent(text: string, from: nat, to: nat, pat: string)
    requires from <= to <= |text| && forall i :: from <= i ==> !At(text, pat, i)
    ensures Absent(text[from..to], pat)
  {
    forall i ensures !At(text[from..to], pat, i) {
      AtShift(text, from, to, pat, from + i);
    }
  }

  lemma NoSpan(m: Marks, text: string)
    requires BlockSpan(m, text) == Ok(None)
    ensures Clean(m, text)
  {
    FindIsFirst(text, m.begin, 0);
    FindIsFirst(text, m.end, 0);
  }

  lemma SpanSearches(m: Marks, text: string) returns (begin: nat, end: nat)
    requires BlockSpan(m, text).Ok? && BlockSpan(m, text).value.Some?
    ensures Searches(m, text, begin, end)
    ensures var span := BlockSpan(m, text).value.value; span.end == end + |m.end| && span.start <= begin
  {
    FindIsFirst(text, m.begin, 0);
    begin := Find(text, m.begin, 0).value;
    FindIsFirst(text, m.end, begin + |m.begin|);
    end := Find(text, m.end, begin + |m.begin|).value;
  }

  /** Before the span there is no begin marker, after it no marker; without one, neither. */
  lemma SpanIsFirst(m: Marks, text: string)
    requires Separated(m) && BlockSpan(m, text).Ok?
    ensures BlockSpan(m, text).value.None? ==> Clean(m, text)
    ensures BlockSpan(m, text).value.Some? ==>
      var span := BlockSpan(m, text).value.value;
      && (forall i :: At(text, m.begin, i) ==> i + |m.begin| > span.start)
      && (forall i :: span.end <= i ==> !At(text, m.begin, i) && !At(text, m.end, i))
  {
    if BlockSpan(m, text).value.None? {
      NoSpan(m, text);
    } else {
      var begin, end := SpanSearches(m, text);
      SearchesFirst(m, text, begin, end);
    }
  }

  lemma SearchesFirst(m: Marks, text: string, begin: nat, end: nat)
    requires Searches(m, text, begin, end)
    ensures forall i :: At(text, m.begin, i) ==> i >= begin
    ensures forall i :: end + |m.end| <= i ==> !At(text, m.begin, i) && !At(text, m.end, i)
  {
    FindIsFirst(text, m.begin, 0);
    FindIsFirst(text, m.begin, begin + |m.begin|);
    FindIsFirst(text, m.end, end + |m.end|);
  }

  /** Where an upsert writes: between a text without begin marker and one without markers. */
  lemma UpsertIsAround(m: Marks, text: string, interior: string) returns (before: string, after: string)
    requires Separated(m)
    requires Upsert(m, text, Framed(m, interior)).Ok?
    ensures forall x :: Upsert(m, text, Framed(m, x)) == Ok(Around(m, before, x, after))
    ensures Absent(before, m.begin) && Clean(m, after)
    ensures Remove(m, text) == Ok(before + after)
  {
    SpanFits(m, text);
    SpanIsFirst(m, text);
    var span := BlockSpan(m, text).value;
    if span.Some? {
      var at := span.value;
      before, after := text[0..at.start], text[at.end..|text|];
      forall i ensures !At(before, m.begin, i) { AtShift(text, 0, at.start, m.begin, i); }
      PartAbsent(text, at.end, |text|, m.begin);
      PartAbsent(text, at.end, |text|, m.end);
      forall x ensures Replaced(text, at, "\n" + Framed(m, x)) == Around(m, before, x, after) {
        Regroup(before, "\n", Framed(m, x), after);
      }
      assert Replaced(text, at, "") == before + after;
    } else {
      var open := RootFrom(text, 0).value + 1;
      before, after := text[0..open], text[open..|text|];
      PartAbsent(text, 0, open, m.begin);
      PartAbsent(text, open, |text|, m.begin);
      PartAbsent(text, open, |text|, m.end);
      assert before + after == text;
    }
  }

  lemma Regroup(a: string, b: string, c: string, d: string)
    ensures a + (b + c) + d == a + b + c + d
  {
    assert a + (b + c) == a + b + c;
  }

  /** The block of an upserted text can be replaced again, leaving the text around it. */
  lemma BlockReplaced(m: Marks, before: string, interior: string, after: string, filler: string)
    requires Separated(m)
    requires EndsLine(interior) && Absent(before, m.begin) && Clean(m, after) && Clean(m, interior)
    ensures var text := Around(m, before, interior, after);
      && BlockSpan(m, text).Ok? && BlockSpan(m, text).value.Some?
      && (var span := BlockSpan(m, text).value.value;
          span.start <= span.end <= |text| && Replaced(text, span, filler) == before + filler + after)
  {
    AroundIsLaidOut(m, before, interior, after);
    CleanBlockFound(m, before, interior, after);
  }

  lemma UpsertAgain(m: Marks, before: string, first: string, after: string, second: string)
    requires Separated(m)
    requires EndsLine(first) && Absent(before, m.begin) && Clean(m, after) && Clean(m, first)
    ensures Upsert(m, Around(m, before, first, after), Framed(m, second)) == Ok(Around(m, before, second, after))
    ensures Remove(m, Around(m, before, first, after)) == Ok(before + after)
  {
    BlockReplaced(m, before, first, after, "\n" + Framed(m, second));
    Regroup(before, "\n", Framed(m, second), after);
    BlockReplaced(m, before, first, after, "");
    assert before + "" == before;
  }

  lemma CleanHasNoBlock(m: Marks, text: string)
    requires Clean(m, text)
    ensures BlockSpan(m, text) == Ok(None)
  {
    FindIsFirst(text, m.begin, 0);
    FindIsFirst(text, m.end, 0);
  }

  /** Removing after upserting is removing; in particular it restores a text that had no
      block, character for character. */
  lemma RemoveUndoesUpsert(m: Marks, text: string, interior: string)
    requires Separated(m)
    requires Upsert(m, text, Framed(m, interior)).Ok? && EndsLine(interior) && Clean(m, interior)
    ensures Remove(m, Upsert(m, text, Framed(m, interior)).value) == Remove(m, text)
    ensures Clean(m, text) ==> Remove(m, Upsert(m, text, Framed(m, interior)).value) == Ok(text)
  {
    var before, after := UpsertIsAround(m, text, interior);
    UpsertAgain(m, before, interior, after, interior);
    if Clean(m, text) { CleanHasNoBlock(m, text); }
  }

  /** The last upsert wins; upserting the same block again changes nothing. */
  lemma LastUpsertWins(m: Marks, text: string, first: string, second: string)
    requires Separated(m)
    requires Upsert(m, text, Framed(m, first)).Ok? && EndsLine(first) && Clean(m, first)
    ensures Upsert(m, Upsert(m, text, Framed(m, first)).value, Framed(m, second)) == Upsert(m, text, Framed(m, second))
  {
    var before, after := UpsertIsAround(m, text, first);
    UpsertAgain(m, before, first, after, second);
  }

  /** A block can be found, and so replaced or removed, exactly when its interior holds no
      marker: a chat named like one wedges the menu file. */
  lemma BlockSurvivesIff(m: Marks, text: string, interior: string)
    requires Separated(m)
    requires Upsert(m, text, Framed(m, interior)).Ok? && EndsLine(interior)
    ensures BlockSpan(m, Upsert(m, text, Framed(m, interior)).value).Ok? <==> Clean(m, interior)
  {
    var before, after := UpsertIsAround(m, text, interior);
    if Clean(m, interior) {
      CleanBlockFound(m, before, interior, after);
    } else {
      MarkedBlockLost(m, before, interior, after);
    }
  }

  /** What the renderer writes is a framed block whose interior ends a line. */
  lemma RenderIsFramed(m: Marks, entries: seq<string>)
    ensures Render(m, entries) == Framed(m, "\n" + Lines(entries)) && EndsLine("\n" + Lines(entries))
  {
    assert m.begin + "\n" + Lines(entries) + m.end == m.begin + ("\n" + Lines(entries)) + m.end;
  }

  // --------------------------------------------------- what the entries decide

  /** An occurrence in one text, a newline, and another lies in one of the two. */
  lemma JoinedHolds(a: string, b: string, pat: string, i: int)
    requires NoNewline(pat) && pat != ""
    ensures At(a + "\n" + b, pat, i) <==> At(a, pat, i) || At(b, pat, i - |a| - 1)
  {
    var text := a + "\n" + b;
    assert text[0..|a|] == a && text[|a| + 1..|text|] == b && text[|a|] == '\n';
    AtShift(text, 0, |a|, pat, i);
    AtShift(text, |a| + 1, |text|, pat, i);
    if At(text, pat, i) { NewlineBreaks(text, pat, i, |a|); }
  }

  lemma JoinedAbsent(a: string, b: string, pat: string)
    requires NoNewline(pat) && pat != ""
    ensures Absent(a + "\n" + b, pat) <==> Absent(a, pat) && Absent(b, pat)
  {
    var text := a + "\n" + b;
    if Absent(text, pat) {
      forall i ensures !At(a, pat, i) { JoinedHolds(a, b, pat, i); }
      forall i ensures !At(b, pat, i) {
        JoinedHolds(a, b, pat, i + |a| + 1);
        assert i + |a| + 1 - |a| - 1 == i;
      }
    }
    if Absent(a, pat) && Absent(b, pat) {
      forall i ensures !At(text, pat, i) { JoinedHolds(a, b, pat, i); }
    }
  }

  lemma EndedAbsent(a: string, pat: string)
    requires NoNewline(pat) && pat != ""
    ensures Absent(a + "\n", pat) <==> Absent(a, pat)
  {
    JoinedAbsent(a, "", pat);
    assert a + "\n" + "" == a + "\n";
    assert Absent("", pat);
  }

  /** The lines of the entries hold a marker exactly when some entry does. */
  lemma {:induction false} LinesHold(entries: seq<string>, pat: string)
    requires NoNewline(pat) && pat != ""
    ensures Absent(Lines(entries), pat) <==> forall k :: 0 <= k < |entries| ==> Absent(entries[k], pat)
    ensures entries != [] ==> EndsLine(Lines(entries))
  {
    if entries == [] {
      assert Absent("", pat);
    } else {
      var n := |entries| - 1;
      LinesHold(entries[..n], pat);
      assert forall k :: 0 <= k < n ==> entries[..n][k] == entries[k];
      AppendLine(Lines(entries[..n]), entries[n], pat);
    }
  }

  lemma AppendLine(front: string, entry: string, pat: string)
    requires NoNewline(pat) && pat != "" && (front == "" || EndsLine(front))
    ensures Absent(front + entry + "\n", pat) <==> Absent(front, pat) && Absent(entry, pat)
  {
    if front == "" {
      assert front + entry + "\n" == entry + "\n";
      assert Absent("", pat);
      EndedAbsent(entry, pat);
    } else {
      var head := front[..|front| - 1];
      assert front == head + "\n" && front + entry + "\n" == head + "\n" + (entry + "\n");
      EndedAbsent(head, pat);
      EndedAbsent(entry, pat);
      JoinedAbsent(head, entry + "\n", pat);
    }
  }

  /** None of the entries of a menu holds a marker. */
  ghost predicate CleanEntries(m: Marks, entries: seq<string>) {
    forall k :: 0 <= k < |entries| ==> Clean(m, entries[k])
  }

  lemma InteriorClean(m: Marks, entries: seq<string>)
    requires Separated(m)
    ensures Clean(m, "\n" + Lines(entries)) <==> CleanEntries(m, entries)
  {
    PatternAbsent(m.begin, entries);
    PatternAbsent(m.end, entries);
    if CleanEntries(m, entries) {
      forall k | 0 <= k < |entries| ensures Absent(entries[k], m.begin) && Absent(entries[k], m.end) {
        assert Clean(m, entries[k]);
      }
    }
  }

  lemma PatternAbsent(pat: string, entries: seq<string>)
    requires Borderless(pat)
    ensures Absent("\n" + Lines(entries), pat) <==> forall k :: 0 <= k < |entries| ==> Absent(entries[k], pat)
  {
    LinesHold(entries, pat);
    JoinedAbsent("", Lines(entries), pat);
    assert "" + "\n" + Lines(entries) == "\n" + Lines(entries);
    assert Absent("", pat);
  }

  /** The menu just written can be found, and so replaced or removed, exactly when none of
      its entries holds a marker. */
  lemma MenuSurvivesIff(m: Marks, text: string, entries: seq<string>)
    requires Separated(m) && Upsert(m, text, Render(m, entries)).Ok?
    ensures BlockSpan(m, Upsert(m, text, Render(m, entries)).value).Ok? <==> CleanEntries(m, entries)
  {
    RenderIsFramed(m, entries);
    InteriorClean(m, entries);
    BlockSurvivesIff(m, text, "\n" + Lines(entries));
  }

  /** Removing a menu of clean entries restores the text, and a second menu takes its place. */
  lemma MenuRoundTrip(m: Marks, text: string, entries: seq<string>, next: seq<string>)
    requires Separated(m) && Upsert(m, text, Render(m, entries)).Ok? && CleanEntries(m, entries)
    ensures var written := Upsert(m, text, Render(m, entries)).value;
      && Remove(m, written) == Remove(m, text) && (Clean(m, text) ==> Remove(m, written) == Ok(text))
      && Upsert(m, written, Render(m, next)) == Upsert(m, text, Render(m, next))
  {
    RenderIsFramed(m, entries);
    RenderIsFramed(m, next);
    InteriorClean(m, entries);
    RemoveUndoesUpsert(m, text, "\n" + Lines(entries));
    LastUpsertWins(m, text, "\n" + Lines(entries), "\n" + Lines(next));
  }

  /** One entry with a begin marker anywhere in it, and the menu can be neither replaced nor
      removed any more. */
  lemma MarkedEntryLost(m: Marks, text: string, entries: seq<string>, k: nat, before: string, after: string,
                        next: string)
    requires Separated(m) && Upsert(m, text, Render(m, entries)).Ok?
    requires k < |entries| && entries[k] == before + m.begin + after
    ensures var written := Upsert(m, text, Render(m, entries)).value;
      Remove(m, written).Err? && Upsert(m, written, next).Err?
  {
    AtShift(entries[k], |before|, |before| + |m.begin|, m.begin, |before|);
    PartAt(entries[k], before, m.begin, after);
    assert At(entries[k], m.begin, |before|);
    assert !Clean(m, entries[k]);
    MenuSurvivesIff(m, text, entries);
  }
}
