/** Splitting a Markdown document, given as its lines, into one chunk per section. */
module Chunker {
  import opened Strings
  import opened Wrappers

  datatype Chunk = Chunk(chunkId: string, doc: string, section: string, text: string)

  const INTRO := "_intro"

  // ---- Slugs ------------------------------------------------------------------------------------

  predicate IsSlugChar(c: char) {
    'a' <= c <= 'z' || '0' <= c <= '9'
  }

  /** Each run of other characters becomes one dash. */
  function Dashed(s: string): string {
    if s == "" then ""
    else if IsSlugChar(Lower(s[0])) then [Lower(s[0])] + Dashed(s[1..])
    else if |s| > 1 && !IsSlugChar(Lower(s[1])) then Dashed(s[1..])
    else ['-'] + Dashed(s[1..])
  }

  function LeftTrim(s: string): string {
    if s != "" && s[0] == '-' then LeftTrim(s[1..]) else s
  }

  function RightTrim(s: string): string {
    if s != "" && s[|s| - 1] == '-' then RightTrim(s[..|s| - 1]) else s
  }

  function Slug(heading: string): string {
    var s := RightTrim(LeftTrim(Dashed(heading)));
    if s == "" then INTRO else s
  }

  function ChunkId(doc: string, heading: string): string {
    doc + ['#'] + (if heading == INTRO then INTRO else Slug(heading))
  }

  // ---- Sections ---------------------------------------------------------------------------------

  predicate IsFence(line: string) {
    "```" <= LeftStrip(line)
  }

  datatype Section = Section(heading: string, body: seq<string>)

  function Text(s: Section): string {
    Strip(Join(s.body, '\n'))
  }

  /** What the loop holds between lines: the sections already flushed and the one being filled. */
  datatype State = State(title: string, inCode: bool, flushed: seq<Section>, heading: string, buf: seq<string>)

  const START := State("", false, [], INTRO, [])

  function Next(s: State, line: string): State {
    if IsFence(line) then s.(inCode := !s.inCode, buf := s.buf + [line])
    else if !s.inCode && "# " <= line && s.title == "" then s.(title := Strip(line[2..]))
    else if !s.inCode && "## " <= line then s.(flushed := All(s), heading := Strip(line[3..]), buf := [])
    else s.(buf := s.buf + [line])
  }

  function All(s: State): seq<Section> {
    s.flushed + [Section(s.heading, s.buf)]
  }

  function Scan(lines: seq<string>): State {
    if lines == [] then START else Next(Scan(lines[..|lines| - 1]), lines[|lines| - 1])
  }

  function Ids(chunks: seq<Chunk>): set<string> {
    set c | c in chunks :: c.chunkId
  }

  /** Flushing the sections in order; None where an id repeats. */
  function Flushed(doc: string, sections: seq<Section>): Option<seq<Chunk>> {
    if sections == [] then Some([])
    else
      var before, s := Flushed(doc, sections[..|sections| - 1]), sections[|sections| - 1];
      var id := ChunkId(doc, s.heading);
      if before.None? || Text(s) == "" then before
      else if id in Ids(before.value) then None
      else Some(before.value + [Chunk(id, doc, s.heading, Text(s))])
  }

  function Prefixed(title: string, chunks: seq<Chunk>): seq<Chunk> {
    if chunks == [] then []
    else
      var c := chunks[0];
      [c.(text := title + " \U{2014} " + c.section + "\n" + c.text)] + Prefixed(title, chunks[1..])
  }

  function Chunks(doc: string, lines: seq<string>): Option<seq<Chunk>> {
    var s := Scan(lines);
    var chunks := Flushed(doc, All(s));
    if chunks.None? then None else Some(Prefixed(s.title, chunks.value))
  }

  /** One flush of the buffer; `clash` where the source raises. */
  method Flush(doc: string, section: string, buf: seq<string>, chunks: seq<Chunk>, seen: set<string>)
    returns (clash: bool, chunks': seq<Chunk>, seen': set<string>)
    requires seen == Ids(chunks)
    ensures forall flushed | Flushed(doc, flushed) == Some(chunks) ::
              Flushed(doc, flushed + [Section(section, buf)]) == if clash then None else Some(chunks')
    ensures seen' == Ids(chunks')
  {
    clash, chunks', seen' := false, chunks, seen;
    var text := Strip(Join(buf, '\n'));
    if text != "" {
      var slug := if section == INTRO then INTRO else Slug(section);
      var id := doc + ['#'] + slug;
      if id in seen {
        clash := true;
      } else {
        seen' := seen + {id};
        chunks' := chunks + [Chunk(id, doc, section, text)];
      }
    }
    forall flushed | Flushed(doc, flushed) == Some(chunks)
      ensures Flushed(doc, flushed + [Section(section, buf)]) == if clash then None else Some(chunks')
    {
      assert (flushed + [Section(section, buf)])[..|flushed|] == flushed;
    }
  }

  method ChunkMarkdown(doc: string, lines: seq<string>) returns (r: Option<seq<Chunk>>)
    ensures r == Chunks(doc, lines)
  {
    var title, section, buf, chunks, seen, inCode := "", INTRO, [], [], {}, false;
    ghost var s := START;
    for i := 0 to |lines|
      invariant s == Scan(lines[..i])
      invariant s == State(title, inCode, s.flushed, section, buf)
      invariant Flushed(doc, s.flushed) == Some(chunks) && seen == Ids(chunks)
    {
      var line := lines[i];
      assert lines[..i + 1][..i] == lines[..i];
      s := Next(s, line);
      if IsFence(line) {
        inCode := !inCode;
        buf := buf + [line];
        continue;
      }
      if !inCode && "# " <= line && title == "" {
        title := Strip(line[2..]);
        continue;
      }
      if !inCode && "## " <= line {
        var clash;
        clash, chunks, seen := Flush(doc, section, buf, chunks, seen);
        if clash {
          ClashIsFinal(doc, lines, i + 1);
          return None;
        }
        buf := [];
        section := Strip(line[3..]);
        continue;
      }
      buf := buf + [line];
    }
    assert lines[..|lines|] == lines;
    var clash;
    clash, chunks, seen := Flush(doc, section, buf, chunks, seen);
    if clash {
      return None;
    }
    return Some(Prefixed(title, chunks));
  }

  lemma {:induction false} FlushedFailureStays(doc: string, a: seq<Section>, b: seq<Section>)
    requires Flushed(doc, a).None?
    ensures Flushed(doc, a + b).None?
  {
    if b == [] {
      assert a + b == a;
    } else {
      var shorter := b[..|b| - 1];
      FlushedFailureStays(doc, a, shorter);
      assert (a + b)[..|a + b| - 1] == a + shorter;
    }
  }

  lemma {:induction false} FlushedGrows(lines: seq<string>, i: nat)
    requires i <= |lines|
    ensures Scan(lines[..i]).flushed <= Scan(lines).flushed
  {
    if i == |lines| {
      assert lines[..i] == lines;
    } else {
      var shorter := lines[..|lines| - 1];
      FlushedGrows(shorter, i);
      assert shorter[..i] == lines[..i];
      assert Scan(shorter).flushed <= Scan(lines).flushed;
    }
  }

  lemma ClashIsFinal(doc: string, lines: seq<string>, i: nat)
    requires i <= |lines| && Flushed(doc, Scan(lines[..i]).flushed).None?
    ensures Chunks(doc, lines).None?
  {
    FlushedGrows(lines, i);
    var a, all := Scan(lines[..i]).flushed, All(Scan(lines));
    assert all == a + all[|a|..];
    FlushedFailureStays(doc, a, all[|a|..]);
  }

  // ---- Nothing is lost ----------------------------------------------------------------------------

  function Fences(lines: seq<string>): nat {
    if lines == [] then 0
    else Fences(lines[..|lines| - 1]) + (if IsFence(lines[|lines| - 1]) then 1 else 0)
  }

  /** Line `i` is a fence or lies between an opening fence and its close. */
  predicate InCode(lines: seq<string>, i: nat)
    requires i < |lines|
  {
    IsFence(lines[i]) || Fences(lines[..i]) % 2 == 1
  }

  predicate NamesTitle(lines: seq<string>, i: nat)
    requires i < |lines|
  {
    !InCode(lines, i) && "# " <= lines[i] && Strip(lines[i][2..]) != ""
  }

  datatype Role = Title | Heading(text: string) | Content(line: string)

  /** The part a line plays, from its own position alone. */
  ghost function RoleOf(lines: seq<string>, i: nat): Role
    requires i < |lines|
  {
    if InCode(lines, i) then Content(lines[i])
    else if "# " <= lines[i] && (forall j | 0 <= j < i :: !NamesTitle(lines, j)) then Title
    else if "## " <= lines[i] then Heading(Strip(lines[i][3..]))
    else Content(lines[i])
  }

  ghost function Roles(lines: seq<string>): seq<Role> {
    seq(|lines|, i requires 0 <= i < |lines| => RoleOf(lines, i))
  }

  ghost function Untitled(roles: seq<Role>): seq<Role> {
    if roles == [] then []
    else
      var last := roles[|roles| - 1];
      Untitled(roles[..|roles| - 1]) + Shown(last)
  }

  function Shown(r: Role): seq<Role> {
    if r.Title? then [] else [r]
  }

  function Contents(body: seq<string>): (r: seq<Role>)
    ensures |r| == |body|
    ensures forall i | 0 <= i < |body| :: r[i] == Content(body[i])
  {
    if body == [] then [] else Contents(body[..|body| - 1]) + [Content(body[|body| - 1])]
  }

  /** The sections written out again, each behind its heading. */
  function Laid(sections: seq<Section>): seq<Role> {
    if sections == [] then []
    else
      var s := sections[|sections| - 1];
      Laid(sections[..|sections| - 1]) + [Heading(s.heading)] + Contents(s.body)
  }

  lemma PositionsInPrefix(lines: seq<string>, n: nat, j: nat)
    requires j < n <= |lines|
    ensures lines[..n][j] == lines[j]
    ensures InCode(lines[..n], j) == InCode(lines, j)
    ensures NamesTitle(lines[..n], j) == NamesTitle(lines, j)
  {
    assert lines[..n][..j] == lines[..j];
  }

  lemma RoleInPrefix(lines: seq<string>, n: nat, i: nat)
    requires i < n <= |lines|
    ensures RoleOf(lines[..n], i) == RoleOf(lines, i)
  {
    forall j | 0 <= j <= i ensures NamesTitle(lines[..n], j) == NamesTitle(lines, j) {
      PositionsInPrefix(lines, n, j);
    }
    PositionsInPrefix(lines, n, i);
  }

  lemma RolesOfPrefix(lines: seq<string>)
    requires lines != []
    ensures var n := |lines| - 1;
            Roles(lines) == Roles(lines[..n]) + [RoleOf(lines, n)]
  {
    var n := |lines| - 1;
    forall i | 0 <= i < n ensures RoleOf(lines[..n], i) == RoleOf(lines, i) {
      RoleInPrefix(lines, n, i);
    }
  }

  lemma {:induction false} ScanTracks(lines: seq<string>)
    ensures Scan(lines).inCode <==> Fences(lines) % 2 == 1
    ensures Scan(lines).title == "" <==> forall j | 0 <= j < |lines| :: !NamesTitle(lines, j)
  {
    if lines != [] {
      var n := |lines| - 1;
      ScanTracks(lines[..n]);
      forall j | 0 <= j < n ensures NamesTitle(lines[..n], j) == NamesTitle(lines, j) {
        PositionsInPrefix(lines, n, j);
      }
      NextTitle(Scan(lines[..n]), lines, n);
    }
  }

  lemma NextTitle(s: State, lines: seq<string>, n: nat)
    requires n < |lines| && s.inCode == (Fences(lines[..n]) % 2 == 1)
    ensures Next(s, lines[n]).title == "" <==> s.title == "" && !NamesTitle(lines, n)
  {
  }

  lemma LaidMore(flushed: seq<Section>, heading: string, buf: seq<string>, line: string)
    ensures Laid(flushed + [Section(heading, buf + [line])]) ==
            Laid(flushed + [Section(heading, buf)]) + [Content(line)]
  {
    LaidLast(flushed, Section(heading, buf + [line]));
    LaidLast(flushed, Section(heading, buf));
    assert (buf + [line])[..|buf|] == buf;
    assert Contents(buf + [line]) == Contents(buf) + [Content(line)];
  }

  lemma LaidLast(flushed: seq<Section>, s: Section)
    ensures Laid(flushed + [s]) == Laid(flushed) + [Heading(s.heading)] + Contents(s.body)
  {
    assert (flushed + [s])[..|flushed|] == flushed;
  }

  /** What a line adds to the sections laid out, by the state it meets. */
  function Added(s: State, line: string): seq<Role> {
    if IsFence(line) || s.inCode then [Content(line)]
    else if "# " <= line && s.title == "" then []
    else if "## " <= line then [Heading(Strip(line[3..]))]
    else [Content(line)]
  }

  lemma LaidNext(s: State, line: string)
    ensures Laid(All(Next(s, line))) == Laid(All(s)) + Added(s, line)
  {
    LaidMore(s.flushed, s.heading, s.buf, line);
    if !IsFence(line) && !s.inCode && !("# " <= line && s.title == "") && "## " <= line {
      LaidLast(All(s), Section(Strip(line[3..]), []));
    }
  }

  lemma AddedIsRole(s: State, lines: seq<string>, n: nat)
    requires n < |lines| && s.inCode == (Fences(lines[..n]) % 2 == 1)
    requires s.title == "" <==> forall j | 0 <= j < n :: !NamesTitle(lines, j)
    ensures Added(s, lines[n]) == Shown(RoleOf(lines, n))
  {
  }

  lemma UntitledOneMore(roles: seq<Role>, r: Role)
    ensures Untitled(roles + [r]) == Untitled(roles) + Shown(r)
  {
    assert (roles + [r])[..|roles|] == roles;
  }

  lemma LaidOneMore(lines: seq<string>)
    requires lines != []
    ensures var n := |lines| - 1;
            Laid(All(Scan(lines))) == Laid(All(Scan(lines[..n]))) + Shown(RoleOf(lines, n))
  {
    var n := |lines| - 1;
    LaidNext(Scan(lines[..n]), lines[n]);
    ScanTracks(lines[..n]);
    forall j | 0 <= j < n ensures NamesTitle(lines[..n], j) == NamesTitle(lines, j) {
      PositionsInPrefix(lines, n, j);
    }
    AddedIsRole(Scan(lines[..n]), lines, n);
  }

  /** Every line is a title, a heading outside code, or content; dropping the titles, the sections laid
      out in order are the document: each line once, in its place, under the latest heading. */
  lemma {:induction false} NothingIsLost(lines: seq<string>)
    ensures Laid(All(Scan(lines))) == [Heading(INTRO)] + Untitled(Roles(lines))
  {
    if lines == [] {
      assert All(START)[..0] == [];
    } else {
      var n := |lines| - 1;
      NothingIsLost(lines[..n]);
      LaidOneMore(lines);
      RolesOfPrefix(lines);
      UntitledOneMore(Roles(lines[..n]), RoleOf(lines, n));
      Regroup([Heading(INTRO)], Untitled(Roles(lines[..n])), Shown(RoleOf(lines, n)));
    }
  }

  // ---- What is kept -------------------------------------------------------------------------------

  predicate AllSpace(s: string) {
    forall i | 0 <= i < |s| :: IsSpace(s[i])
  }

  /** The sections that have text, as chunks, in order. */
  function Kept(doc: string, sections: seq<Section>): seq<Chunk> {
    if sections == [] then []
    else
      var s := sections[|sections| - 1];
      Kept(doc, sections[..|sections| - 1]) +
      (if Text(s) == "" then [] else [Chunk(ChunkId(doc, s.heading), doc, s.heading, Text(s))])
  }

  ghost predicate DistinctIds(chunks: seq<Chunk>) {
    forall i, j | 0 <= i < j < |chunks| :: chunks[i].chunkId != chunks[j].chunkId
  }

  /** The call fails exactly when two sections with text share an id, and otherwise gives exactly the
      sections with text. */
  lemma {:induction false} FlushedExactly(doc: string, sections: seq<Section>)
    ensures Flushed(doc, sections) == if DistinctIds(Kept(doc, sections)) then Some(Kept(doc, sections)) else None
  {
    if sections != [] {
      var shorter, s := sections[..|sections| - 1], sections[|sections| - 1];
      FlushedExactly(doc, shorter);
      if Text(s) == "" {
        assert Kept(doc, sections) == Kept(doc, shorter);
      } else {
        var c := Chunk(ChunkId(doc, s.heading), doc, s.heading, Text(s));
        assert Kept(doc, sections) == Kept(doc, shorter) + [c];
        OneMoreId(Kept(doc, shorter), c);
      }
    }
  }

  /** What a caller receives: ids never repeat, and only the text gains the title and section. */
  lemma ChunkingIsExact(doc: string, lines: seq<string>)
    ensures var s := Scan(lines);
            var kept, r := Kept(doc, All(s)), Chunks(doc, lines);
            (r.None? <==> !DistinctIds(kept)) &&
            (r.Some? ==>
               DistinctIds(r.value) && |r.value| == |kept| &&
               forall i | 0 <= i < |kept| ::
                 r.value[i] == kept[i].(text := s.title + " \U{2014} " + kept[i].section + "\n" + kept[i].text))
  {
    FlushedExactly(doc, All(Scan(lines)));
    PrefixedPointwise(Scan(lines).title, Kept(doc, All(Scan(lines))));
  }

  lemma {:induction false} PrefixedPointwise(title: string, chunks: seq<Chunk>)
    ensures |Prefixed(title, chunks)| == |chunks|
    ensures forall i | 0 <= i < |chunks| ::
              Prefixed(title, chunks)[i] ==
              chunks[i].(text := title + " \U{2014} " + chunks[i].section + "\n" + chunks[i].text)
  {
    if chunks != [] { PrefixedPointwise(title, chunks[1..]); }
  }

  lemma OneMoreId(chunks: seq<Chunk>, c: Chunk)
    ensures DistinctIds(chunks + [c]) <==> DistinctIds(chunks) && c.chunkId !in Ids(chunks)
  {
    var more := chunks + [c];
    assert forall i | 0 <= i < |chunks| :: more[i] == chunks[i];
    if c.chunkId in Ids(chunks) {
      var i :| 0 <= i < |chunks| && chunks[i].chunkId == c.chunkId;
      assert more[i].chunkId == more[|chunks|].chunkId;
    }
    if DistinctIds(more) {
      forall i, j | 0 <= i < j < |chunks| ensures chunks[i].chunkId != chunks[j].chunkId {
        assert more[i].chunkId != more[j].chunkId;
      }
    }
  }

  lemma {:induction false} LeftStripDrops(s: string)
    ensures exists l :: AllSpace(l) && s == l + LeftStrip(s)
  {
    if s != "" && IsSpace(s[0]) {
      LeftStripDrops(s[1..]);
      var l :| AllSpace(l) && s[1..] == l + LeftStrip(s[1..]);
      assert s == ([s[0]] + l) + LeftStrip(s);
    } else {
      assert s == "" + LeftStrip(s);
    }
  }

  lemma {:induction false} RightStripDrops(s: string)
    ensures exists r :: AllSpace(r) && s == RightStrip(s) + r
  {
    if s != "" && IsSpace(s[|s| - 1]) {
      var shorter := s[..|s| - 1];
      RightStripDrops(shorter);
      var r :| AllSpace(r) && shorter == RightStrip(shorter) + r;
      assert s == RightStrip(s) + (r + [s[|s| - 1]]);
    } else {
      assert s == RightStrip(s) + "";
    }
  }

  lemma {:induction false} SpaceStripsAway(s: string)
    requires AllSpace(s)
    ensures Strip(s) == ""
  {
    if s != "" { SpaceStripsAway(s[1..]); }
  }

  /** A chunk's text is its section's lines less outer white space only; a section is dropped exactly
      when it holds nothing else. */
  lemma OnlySpaceIsDropped(s: Section)
    ensures exists l, r :: AllSpace(l) && AllSpace(r) && Join(s.body, '\n') == l + Text(s) + r
    ensures Trimmed(Text(s))
    ensures Text(s) == "" <==> AllSpace(Join(s.body, '\n'))
  {
    var whole := Join(s.body, '\n');
    LeftStripDrops(whole);
    RightStripDrops(LeftStrip(whole));
    StripPieces(whole);
    var l :| AllSpace(l) && whole == l + LeftStrip(whole);
    var r :| AllSpace(r) && LeftStrip(whole) == Text(s) + r;
    assert whole == l + Text(s) + r;
    if AllSpace(whole) { SpaceStripsAway(whole); }
  }

  // ---- Ids ------------------------------------------------------------------------------------------

  /** Accepted in a gold query after the `#`. */
  predicate GradedChar(c: char) {
    IsSlugChar(c) || c == '.' || c == '_' || c == '-'
  }

  predicate Graded(s: string) {
    forall i | 0 <= i < |s| :: GradedChar(s[i])
  }

  lemma {:induction false} DashedIsGraded(s: string)
    ensures Graded(Dashed(s))
  {
    if s != "" { DashedIsGraded(s[1..]); }
  }

  lemma {:induction false} TrimsStayGraded(s: string)
    requires Graded(s)
    ensures Graded(LeftTrim(s)) && Graded(RightTrim(s))
  {
    if s != "" {
      TrimsStayGraded(s[1..]);
      TrimsStayGraded(s[..|s| - 1]);
    }
  }

  /** `[a-z0-9][a-z0-9._-]*#[a-z0-9._-]+`, the ids a gold query may name. */
  ghost predicate IsChunkId(id: string) {
    exists a, b :: a != "" && IsSlugChar(a[0]) && Graded(a) && b != "" && Graded(b) && id == a + ['#'] + b
  }

  /** Whatever the heading, the id of a well-named document can be named by a gold query. */
  lemma ChunkIdsAreNameable(doc: string, heading: string)
    requires doc != "" && IsSlugChar(doc[0]) && Graded(doc)
    ensures IsChunkId(ChunkId(doc, heading))
  {
    DashedIsGraded(heading);
    TrimsStayGraded(Dashed(heading));
    TrimsStayGraded(LeftTrim(Dashed(heading)));
    assert Graded(INTRO);
  }

  /** The letters and digits of a text, in order. */
  function Letters(s: string): string {
    if s == "" then "" else (if IsSlugChar(s[0]) then [s[0]] else "") + Letters(s[1..])
  }

  function LowerText(s: string): string {
    if s == "" then "" else [Lower(s[0])] + LowerText(s[1..])
  }

  lemma {:induction false} DashedKeepsLetters(s: string)
    ensures Letters(Dashed(s)) == Letters(LowerText(s))
  {
    if s != "" { DashedKeepsLetters(s[1..]); }
  }

  lemma {:induction false} DashAddsNoLetter(s: string)
    ensures Letters(s + ['-']) == Letters(s)
  {
    if s == "" {
      assert (s + ['-'])[1..] == "";
    } else {
      assert (s + ['-'])[1..] == s[1..] + ['-'];
      DashAddsNoLetter(s[1..]);
    }
  }

  lemma {:induction false} LeftTrimKeepsLetters(s: string)
    ensures Letters(LeftTrim(s)) == Letters(s)
    ensures LeftTrim(s) != "" ==> LeftTrim(s)[0] != '-'
  {
    if s != "" && s[0] == '-' { LeftTrimKeepsLetters(s[1..]); }
  }

  lemma {:induction false} RightTrimKeepsLetters(s: string)
    ensures Letters(RightTrim(s)) == Letters(s)
    ensures RightTrim(s) != "" ==> RightTrim(s)[|RightTrim(s)| - 1] != '-' && RightTrim(s)[0] == s[0]
  {
    if s != "" && s[|s| - 1] == '-' {
      var shorter := s[..|s| - 1];
      RightTrimKeepsLetters(shorter);
      assert s == shorter + ['-'];
      DashAddsNoLetter(shorter);
    }
  }

  predicate IsDashed(s: string) {
    forall i | 0 <= i < |s| :: IsSlugChar(s[i]) || s[i] == '-'
  }

  lemma {:induction false} DashedIsDashed(s: string)
    ensures IsDashed(Dashed(s))
  {
    if s != "" { DashedIsDashed(s[1..]); }
  }

  lemma {:induction false} TrimsStayDashed(s: string)
    requires IsDashed(s)
    ensures IsDashed(LeftTrim(s)) && IsDashed(RightTrim(s))
  {
    if s != "" {
      TrimsStayDashed(s[1..]);
      TrimsStayDashed(s[..|s| - 1]);
    }
  }

  /** A slug keeps every letter and digit of its heading, lower-cased, in order; only a heading with none
      collapses to the introduction's. */
  lemma SlugKeepsLetters(heading: string)
    ensures var letters := Letters(LowerText(heading));
            (Slug(heading) == INTRO <==> letters == "") &&
            (letters != "" ==> Letters(Slug(heading)) == letters && Slug(heading)[0] != '-'
                               && Slug(heading)[|Slug(heading)| - 1] != '-')
  {
    var d := Dashed(heading);
    var s := RightTrim(LeftTrim(d));
    DashedKeepsLetters(heading);
    LeftTrimKeepsLetters(d);
    RightTrimKeepsLetters(LeftTrim(d));
    DashedIsDashed(heading);
    TrimsStayDashed(d);
    TrimsStayDashed(LeftTrim(d));
    assert INTRO[0] == '_';
    if s != "" {
      assert s[0] == LeftTrim(d)[0] != '-';
      assert IsSlugChar(s[0]) && Letters(s)[0] == s[0];
    }
  }
}
