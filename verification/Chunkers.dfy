/** Chunking by file type, and the length every chunk keeps to. */
module Chunkers {
  import opened Options
  import opened Text
  import opened Splitter
  import opened Markdown
  import opened Inks
  import opened SourceLines
  import opened PythonSource

  const PARAGRAPH := "\n\n"

  /** No chunk the pipeline embeds is longer. */
  function Bound(limits: Limits): nat
  {
    if limits.maxChars >= limits.size + limits.overlap + 2 then limits.maxChars else limits.size + limits.overlap + 2
  }

  /** Within the bound once stripped. */
  predicate Fits(limits: Limits, chunk: string)
  {
    |Strip(chunk)| <= Bound(limits)
  }

  predicate AllFit(limits: Limits, chunks: seq<string>)
  {
    forall i | 0 <= i < |chunks| :: Fits(limits, chunks[i])
  }

  // ---------------------------------------------------------------- paragraphs packed into a buffer

  function TrimEmpty(buf: seq<string>): (r: seq<string>)
    ensures r != [] ==> r[0] != ""
  {
    if buf == [] || buf[0] != "" then buf else TrimEmpty(buf[1..])
  }

  lemma {:induction false} TrimSnoc(buf: seq<string>, p: string)
    ensures TrimEmpty(buf + [p]) == if TrimEmpty(buf) != [] then TrimEmpty(buf) + [p] else if p == "" then [] else [p]
  {
    if buf == [] {
      assert buf + [p] == [p];
      assert [p][1..] == [];
    } else if buf[0] == "" {
      assert (buf + [p])[1..] == buf[1..] + [p];
      TrimSnoc(buf[1..], p);
    }
  }

  /** Leading empty paragraphs put nothing but newlines in front. */
  lemma {:induction false} TrimmedStrip(buf: seq<string>)
    ensures Strip(Join(PARAGRAPH, buf)) == Strip(Join(PARAGRAPH, TrimEmpty(buf)))
  {
    if buf != [] && buf[0] == "" {
      TrimmedStrip(buf[1..]);
      if |buf| > 1 {
        assert Join(PARAGRAPH, buf) == PARAGRAPH + Join(PARAGRAPH, buf[1..]);
        LStripSpaces(PARAGRAPH, Join(PARAGRAPH, buf[1..]));
      }
    }
  }

  /** The length the loop keeps is that of the join without the leading empty paragraphs. */
  ghost predicate Buffered(buf: seq<string>, bufLen: nat)
  {
    bufLen == |Join(PARAGRAPH, TrimEmpty(buf))|
  }

  lemma BufferGrows(buf: seq<string>, bufLen: nat, p: string)
    requires Buffered(buf, bufLen)
    ensures Buffered(buf + [p], bufLen + |p| + if bufLen != 0 then 2 else 0)
    ensures bufLen != 0 ==> buf != []
  {
    TrimSnoc(buf, p);
    var t := TrimEmpty(buf);
    if t != [] {
      JoinSnoc(PARAGRAPH, t, p);
    }
  }

  lemma BufferFits(limits: Limits, buf: seq<string>, bufLen: nat)
    requires Buffered(buf, bufLen) && bufLen <= limits.maxChars
    ensures Fits(limits, Join(PARAGRAPH, buf))
  {
    TrimmedStrip(buf);
  }

  // The chunks that are out, the paragraphs that wait, and the length kept for them.
  datatype Packing = Packing(chunks: seq<string>, buf: seq<string>, bufLen: nat)

  function Flushed(limits: Limits, s: Packing, p: string): Packing
  {
    if s.buf != [] && s.bufLen + |p| + 2 > limits.maxChars then Packing(s.chunks + [Join(PARAGRAPH, s.buf)], [], 0)
    else s
  }

  function PackStep(limits: Limits, s: Packing, p: string): Packing
  {
    var t := Flushed(limits, s, p);
    if |p| > limits.maxChars then Packing(t.chunks + ChunksOf(limits, p), t.buf, t.bufLen)
    else Packing(t.chunks, t.buf + [p], t.bufLen + |p| + if t.bufLen != 0 then 2 else 0)
  }

  function Pack(limits: Limits, paragraphs: seq<string>): Packing
  {
    if paragraphs == [] then Packing([], [], 0)
    else PackStep(limits, Pack(limits, paragraphs[..|paragraphs| - 1]), paragraphs[|paragraphs| - 1])
  }

  function Packed(limits: Limits, paragraphs: seq<string>): seq<string>
  {
    var s := Pack(limits, paragraphs);
    if s.buf == [] then s.chunks else s.chunks + [Join(PARAGRAPH, s.buf)]
  }

  lemma PackSnoc(limits: Limits, paragraphs: seq<string>, p: string)
    ensures Pack(limits, paragraphs + [p]) == PackStep(limits, Pack(limits, paragraphs), p)
  {
    assert (paragraphs + [p])[..|paragraphs|] == paragraphs;
  }

  /** The chunks of one section. */
  function SectionChunks(limits: Limits, section: string): seq<string>
  {
    if |section| <= limits.maxChars then [section] else Packed(limits, Split(section, PARAGRAPH))
  }

  lemma JoinCons(p: string, rest: seq<string>)
    requires rest != []
    ensures Join(PARAGRAPH, [p] + rest) == p + PARAGRAPH + Join(PARAGRAPH, rest)
  {
    assert ([p] + rest)[1..] == rest;
  }

  lemma ThreeEmptyThenText(text: string)
    ensures Join(PARAGRAPH, ["", "", "", text]) == "\n\n\n\n\n\n" + text
  {
    JoinCons("", [text]);
    JoinCons("", ["", text]);
    JoinCons("", ["", "", text]);
  }

  lemma FiveParagraphs(limits: Limits)
    requires limits.maxChars == 4
    ensures Packed(limits, ["abcd"] + [""] + [""] + [""] + ["ab"]) == ["abcd"] + ["\n\n\n\n\n\n" + "ab"]
  {
    PackSnoc(limits, [], "abcd");
    assert [] + ["abcd"] == ["abcd"];
    PackSnoc(limits, ["abcd"], "");
    assert Pack(limits, ["abcd"] + [""]) == Packing(["abcd"], [""], 0);
    PackSnoc(limits, ["abcd"] + [""], "");
    PackSnoc(limits, ["abcd"] + [""] + [""], "");
    assert Pack(limits, ["abcd"] + [""] + [""] + [""]) == Packing(["abcd"], ["", "", ""], 0);
    PackSnoc(limits, ["abcd"] + [""] + [""] + [""], "ab");
    assert ["", "", ""] + ["ab"] == ["", "", "", "ab"];
    ThreeEmptyThenText("ab");
  }

  lemma FoundAt(text: string, separator: string, n: nat)
    requires separator != "" && n < |text| && StartsWith(text[n..], separator)
    requires forall j | 0 <= j < n :: !StartsWith(text[j..], separator)
    ensures Find(text, separator, 0) == n
  {
  }

  lemma NoneIn(part: string, text: string)
    requires part <= text && '\n' !in part
    ensures forall j | 0 <= j < |part| :: !StartsWith(text[j..], PARAGRAPH)
  {
    forall j | 0 <= j < |part| ensures !StartsWith(text[j..], PARAGRAPH) {
      assert text[j..][0] == part[j] && part[j] in part;
    }
  }

  /** The paragraph before the first separator, and the paragraphs after it. */
  lemma SplitCons(first: string, rest: string, section: string)
    requires '\n' !in first && |first| + 2 <= |section| && first == section[..|first|]
    requires section[|first|..] == PARAGRAPH + rest && section[|first| + 2..] == rest
    ensures Split(section, PARAGRAPH) == [first] + Split(rest, PARAGRAPH)
  {
    NoneIn(first, section);
    FoundAt(section, PARAGRAPH, |first|);
  }

  lemma SplitNone(text: string)
    requires '\n' !in text
    ensures Split(text, PARAGRAPH) == [text]
  {
    NoneIn(text, text);
  }

  lemma SplitEmptyFirst(rest: string)
    ensures Split(PARAGRAPH + rest, PARAGRAPH) == [""] + Split(rest, PARAGRAPH)
  {
    var section := PARAGRAPH + rest;
    assert section[0..] == section && section[2..] == rest && section[..0] == "";
    SplitCons("", rest, section);
  }

  /** Two words with four empty lines between them. */
  const GAPPED := "abcd" + (PARAGRAPH + (PARAGRAPH + (PARAGRAPH + (PARAGRAPH + "ab"))))

  lemma SplitInFive(section: string, first: string, rest: string, last: string)
    requires rest == PARAGRAPH + (PARAGRAPH + (PARAGRAPH + last)) && section == first + (PARAGRAPH + rest)
    requires '\n' !in first && '\n' !in last
    ensures Split(section, PARAGRAPH) == [first] + ([""] + ([""] + ([""] + [last])))
  {
    SplitNone(last);
    SplitEmptyFirst(last);
    SplitEmptyFirst(PARAGRAPH + last);
    SplitEmptyFirst(PARAGRAPH + (PARAGRAPH + last));
    assert section[..|first|] == first && section[|first|..] == PARAGRAPH + rest;
    assert section[|first| + 2..] == section[|first|..][2..] == rest;
    SplitCons(first, rest, section);
  }

  lemma PackedInTwo(limits: Limits, section: string)
    requires limits.maxChars == 4
    requires Split(section, PARAGRAPH) == ["abcd"] + ([""] + ([""] + ([""] + ["ab"])))
    ensures Packed(limits, Split(section, PARAGRAPH)) == ["abcd"] + ["\n\n\n\n\n\n" + "ab"]
    ensures AllAtMost(Split(section, PARAGRAPH), 4)
  {
    FiveParagraphs(limits);
    assert Split(section, PARAGRAPH) == ["abcd"] + [""] + [""] + [""] + ["ab"];
  }

  /**
   * Before stripping a packed chunk can exceed the maximum: the buffer length does not count the
   * separators after leading empty paragraphs.  Here the maximum is 4 and a chunk has 8.
   */
  lemma PackedCanExceedMaximum() returns (limits: Limits, section: string)
    ensures limits == Limits(2, 1, 4) && ValidLimits(limits) && section == GAPPED && |section| > limits.maxChars
    ensures AllAtMost(Split(section, PARAGRAPH), limits.maxChars)
    ensures SectionChunks(limits, section) == ["abcd"] + ["\n\n\n\n\n\n" + "ab"]
  {
    limits, section := Limits(2, 1, 4), GAPPED;
    SplitInFive(section, "abcd", PARAGRAPH + (PARAGRAPH + (PARAGRAPH + "ab")), "ab");
    PackedInTwo(limits, section);
  }

  /** The separators that follow leading empty paragraphs. */
  function Uncounted(buf: seq<string>): nat
  {
    var t := TrimEmpty(buf);
    TrimShorter(buf);
    2 * if t == [] && buf != [] then |buf| - 1 else |buf| - |t|
  }

  lemma {:induction false} TrimShorter(buf: seq<string>)
    ensures |TrimEmpty(buf)| <= |buf|
  {
    if buf != [] && buf[0] == "" { TrimShorter(buf[1..]); }
  }

  /** A chunk is longer than the length kept for it by exactly the separators not counted. */
  lemma {:induction false} JoinWithoutTrim(buf: seq<string>)
    ensures |Join(PARAGRAPH, buf)| == |Join(PARAGRAPH, TrimEmpty(buf))| + Uncounted(buf)
  {
    if buf != [] && buf[0] == "" && |buf| > 1 {
      JoinWithoutTrim(buf[1..]);
    }
  }

  /** The paragraphs of each chunk: each chunk within the maximum but for the separators not counted. */
  ghost predicate Buffers(maxChars: nat, chunks: seq<string>, groups: seq<seq<string>>)
  {
    |groups| == |chunks| && forall i | 0 <= i < |chunks| ::
      chunks[i] == Join(PARAGRAPH, groups[i]) && |Join(PARAGRAPH, TrimEmpty(groups[i]))| <= maxChars
  }

  lemma BuffersSnoc(maxChars: nat, chunks: seq<string>, groups: seq<seq<string>>, buf: seq<string>, bufLen: nat)
    requires Buffers(maxChars, chunks, groups) && Buffered(buf, bufLen) && bufLen <= maxChars
    ensures Buffers(maxChars, chunks + [Join(PARAGRAPH, buf)], groups + [buf])
    ensures Flat(groups + [buf]) == Flat(groups) + buf
  {
    FlatSnoc(groups, buf);
    var all, more := chunks + [Join(PARAGRAPH, buf)], groups + [buf];
    forall i | 0 <= i < |all|
      ensures all[i] == Join(PARAGRAPH, more[i]) && |Join(PARAGRAPH, TrimEmpty(more[i]))| <= maxChars
    {
      if i < |chunks| { assert all[i] == chunks[i] && more[i] == groups[i]; }
    }
  }

  lemma NoGroups(limits: Limits)
    ensures Pack(limits, []) == Packing([], [], 0) && Buffers(limits.maxChars, [], []) && Buffered([], 0)
    ensures Flat<string>([]) + [] == []
  {
  }

  /** What the loop has packed: closed chunks and a buffer, together all paragraphs so far. */
  lemma {:induction false} PackGroups(limits: Limits, paragraphs: seq<string>) returns (groups: seq<seq<string>>)
    requires AllAtMost(paragraphs, limits.maxChars)
    ensures var s := Pack(limits, paragraphs);
      && Buffers(limits.maxChars, s.chunks, groups) && Buffered(s.buf, s.bufLen) && s.bufLen <= limits.maxChars
      && Flat(groups) + s.buf == paragraphs
  {
    if paragraphs == [] {
      NoGroups(limits);
      groups := [];
    } else {
      var init, p := paragraphs[..|paragraphs| - 1], paragraphs[|paragraphs| - 1];
      assert p in paragraphs && paragraphs == init + [p];
      var prior := PackGroups(limits, init);
      groups := StepGroups(limits, Pack(limits, init), prior, init, p);
    }
  }

  lemma StepGroups(limits: Limits, s: Packing, groups: seq<seq<string>>, init: seq<string>, p: string)
    returns (groups': seq<seq<string>>)
    requires Buffers(limits.maxChars, s.chunks, groups) && Buffered(s.buf, s.bufLen) && s.bufLen <= limits.maxChars
    requires |p| <= limits.maxChars
    requires Flat(groups) + s.buf == init
    ensures var s' := PackStep(limits, s, p);
      && Buffers(limits.maxChars, s'.chunks, groups') && Buffered(s'.buf, s'.bufLen) && s'.bufLen <= limits.maxChars
      && Flat(groups') + s'.buf == init + [p]
  {
    var t := Flushed(limits, s, p);
    groups' := groups;
    if s.buf != [] && s.bufLen + |p| + 2 > limits.maxChars {
      BuffersSnoc(limits.maxChars, s.chunks, groups, s.buf, s.bufLen);
      groups' := groups + [s.buf];
      assert Flat(groups') + [] == init;
    }
    BufferGrows(t.buf, t.bufLen, p);
    assert Flat(groups') + (t.buf + [p]) == (Flat(groups') + t.buf) + [p];
  }

  /**
   * All packed chunks of a section keep to the maximum exactly when each has room for the
   * separators not counted, so certainly when no paragraph is empty.
   */
  lemma PackedWithinIff(limits: Limits, section: string) returns (groups: seq<seq<string>>)
    requires AllAtMost(Split(section, PARAGRAPH), limits.maxChars)
    ensures var packed := Packed(limits, Split(section, PARAGRAPH));
      && Flat(groups) == Split(section, PARAGRAPH) && Buffers(limits.maxChars, packed, groups)
      && (AllAtMost(packed, limits.maxChars) <==>
          forall i | 0 <= i < |groups| ::
            |Join(PARAGRAPH, TrimEmpty(groups[i]))| + Uncounted(groups[i]) <= limits.maxChars)
      && ("" !in Split(section, PARAGRAPH) ==> AllAtMost(packed, limits.maxChars))
  {
    var paragraphs := Split(section, PARAGRAPH);
    var s, packed := Pack(limits, paragraphs), Packed(limits, paragraphs);
    groups := PackGroups(limits, paragraphs);
    BuffersSnoc(limits.maxChars, s.chunks, groups, s.buf, s.bufLen);
    groups := groups + [s.buf];
    BuffersWithinIff(limits.maxChars, packed, groups);
  }

  lemma BuffersWithinIff(maxChars: nat, chunks: seq<string>, groups: seq<seq<string>>)
    requires Buffers(maxChars, chunks, groups)
    ensures AllAtMost(chunks, maxChars) <==>
              forall i | 0 <= i < |groups| :: |Join(PARAGRAPH, TrimEmpty(groups[i]))| + Uncounted(groups[i]) <= maxChars
    ensures "" !in Flat(groups) ==> AllAtMost(chunks, maxChars)
  {
    forall i | 0 <= i < |groups|
      ensures |chunks[i]| == |Join(PARAGRAPH, TrimEmpty(groups[i]))| + Uncounted(groups[i])
      ensures "" !in Flat(groups) ==> Uncounted(groups[i]) == 0
    {
      JoinWithoutTrim(groups[i]);
      InFlat(groups, i);
    }
  }

  lemma {:induction false} InFlat(groups: seq<seq<string>>, i: nat)
    requires i < |groups|
    ensures forall p | p in groups[i] :: p in Flat(groups)
  {
    if i < |groups| - 1 {
      InFlat(groups[..|groups| - 1], i);
    }
  }

  function Carry(limits: Limits): nat
  {
    limits.overlap + 2
  }

  /** Chunks and buffer together say what has been read. */
  ghost predicate SaysSoFar(limits: Limits, chunks: seq<string>, buf: seq<string>, ink: string)
  {
    exists said :: Says(Carry(limits), chunks, said) && said + Ink(Flat(buf)) == ink
  }

  lemma BufferSaid(limits: Limits, chunks: seq<string>, buf: seq<string>, ink: string)
    requires SaysSoFar(limits, chunks, buf, ink)
    ensures SaysSoFar(limits, chunks + [Join(PARAGRAPH, buf)], [], ink)
  {
    var said :| Says(Carry(limits), chunks, said) && said + Ink(Flat(buf)) == ink;
    SaysOne(Carry(limits), Join(PARAGRAPH, buf));
    InkJoin(PARAGRAPH, buf);
    SaysConcat(Carry(limits), chunks, said, [Join(PARAGRAPH, buf)], Ink(Flat(buf)));
    assert (said + Ink(Flat(buf))) + "" == ink;
  }

  lemma ParagraphBuffered(limits: Limits, chunks: seq<string>, buf: seq<string>, ink: string, p: string)
    requires SaysSoFar(limits, chunks, buf, ink)
    ensures SaysSoFar(limits, chunks, buf + [p], ink + Ink(p))
  {
    var said :| Says(Carry(limits), chunks, said) && said + Ink(Flat(buf)) == ink;
    FlatSnoc(buf, p);
    InkConcat(Flat(buf), p);
    Regroup(said, Ink(Flat(buf)), Ink(p));
  }

  lemma Regroup(a: string, b: string, c: string)
    ensures (a + b) + c == a + (b + c) && a + "" == a
  {
  }

  lemma EmptyBuffer(limits: Limits, chunks: seq<string>, ink: string)
    ensures SaysSoFar(limits, chunks, [], ink) <==> Says(Carry(limits), chunks, ink)
  {
    Regroup(ink, "", "");
    if said :| Says(Carry(limits), chunks, said) && said + Ink(Flat([])) == ink {
      Regroup(said, "", "");
    }
  }

  method Flush(limits: Limits, p: string, chunks: seq<string>, buf: seq<string>, bufLen: nat, ghost ink: string)
    returns (chunks': seq<string>, buf': seq<string>, bufLen': nat)
    requires ValidLimits(limits) && AllFit(limits, chunks) && Buffered(buf, bufLen) && bufLen <= limits.maxChars
    requires SaysSoFar(limits, chunks, buf, ink)
    ensures AllFit(limits, chunks') && Buffered(buf', bufLen') && SaysSoFar(limits, chunks', buf', ink)
    ensures |p| <= limits.maxChars ==> bufLen' + |p| + (if bufLen' != 0 then 2 else 0) <= limits.maxChars
    ensures |p| > limits.maxChars ==> buf' == []
    ensures bufLen' <= limits.maxChars
            && Packing(chunks', buf', bufLen') == Flushed(limits, Packing(chunks, buf, bufLen), p)
  {
    chunks', buf', bufLen' := chunks, buf, bufLen;
    var additional := |p| + if buf != [] then 2 else 0;
    if buf != [] && bufLen + additional > limits.maxChars {
      BufferFits(limits, buf, bufLen);
      BufferSaid(limits, chunks, buf, ink);
      chunks' := chunks + [Join(PARAGRAPH, buf)];
      buf', bufLen' := [], 0;
    }
  }

  /** A paragraph that is itself too long is split as text. */
  method SplitParagraph(limits: Limits, p: string, chunks: seq<string>, ghost ink: string)
    returns (chunks': seq<string>)
    requires ValidLimits(limits) && AllFit(limits, chunks) && SaysSoFar(limits, chunks, [], ink)
    ensures AllFit(limits, chunks') && SaysSoFar(limits, chunks', [], ink + Ink(p))
    ensures chunks' == chunks + ChunksOf(limits, p)
  {
    var pieces;
    ghost var news;
    pieces, news := ChunkText(limits, p);
    PiecesFit(limits, pieces);
    TextSays(limits, p, pieces, news);
    EmptyBuffer(limits, chunks, ink);
    SaysConcat(Carry(limits), chunks, ink, pieces, Ink(p));
    chunks' := chunks + pieces;
    EmptyBuffer(limits, chunks', ink + Ink(p));
  }

  /** One paragraph: flush the buffer if it would overrun, then buffer the paragraph or split it. */
  method AddParagraph(limits: Limits, p: string, chunks: seq<string>, buf: seq<string>, bufLen: nat, ghost ink: string)
    returns (chunks': seq<string>, buf': seq<string>, bufLen': nat)
    requires ValidLimits(limits) && AllFit(limits, chunks) && Buffered(buf, bufLen) && bufLen <= limits.maxChars
    requires SaysSoFar(limits, chunks, buf, ink)
    ensures AllFit(limits, chunks') && Buffered(buf', bufLen') && bufLen' <= limits.maxChars
    ensures SaysSoFar(limits, chunks', buf', ink + Ink(p))
    ensures Packing(chunks', buf', bufLen') == PackStep(limits, Packing(chunks, buf, bufLen), p)
  {
    chunks', buf', bufLen' := Flush(limits, p, chunks, buf, bufLen, ink);
    if |p| > limits.maxChars {
      chunks' := SplitParagraph(limits, p, chunks', ink);
    } else {
      BufferGrows(buf', bufLen', p);
      ParagraphBuffered(limits, chunks', buf', ink, p);
      bufLen' := bufLen' + |p| + if bufLen' != 0 then 2 else 0;
      buf' := buf' + [p];
    }
  }

  /** A section that fits is one chunk; another is packed paragraph by paragraph, and nothing in it is lost. */
  method SplitOversizedSection(limits: Limits, section: string) returns (chunks: seq<string>)
    requires ValidLimits(limits)
    ensures AllFit(limits, chunks) && Says(Carry(limits), chunks, Ink(section))
    ensures chunks == SectionChunks(limits, section) && SectionMeant(limits, section, chunks)
  {
    SectionIsMeant(limits, section);
    if |section| <= limits.maxChars {
      SaysOne(Carry(limits), section);
      return [section];
    }
    var paragraphs := Split(section, PARAGRAPH);
    ParagraphsSay(section);
    chunks := PackParagraphs(limits, paragraphs);
  }

  lemma ParagraphsSay(section: string)
    ensures Ink(Flat(Split(section, PARAGRAPH))) == Ink(section)
  {
    JoinSplit(section, PARAGRAPH);
    InkJoin(PARAGRAPH, Split(section, PARAGRAPH));
  }

  method PackParagraphs(limits: Limits, paragraphs: seq<string>) returns (chunks: seq<string>)
    requires ValidLimits(limits)
    ensures AllFit(limits, chunks) && Says(Carry(limits), chunks, Ink(Flat(paragraphs)))
    ensures chunks == Packed(limits, paragraphs)
  {
    chunks := [];
    var buf: seq<string> := [];
    var bufLen: nat := 0;
    SaysNothing(Carry(limits));
    for i := 0 to |paragraphs|
      invariant AllFit(limits, chunks) && Buffered(buf, bufLen) && bufLen <= limits.maxChars
      invariant SaysSoFar(limits, chunks, buf, Ink(Flat(paragraphs[..i])))
      invariant Packing(chunks, buf, bufLen) == Pack(limits, paragraphs[..i])
    {
      OneMoreParagraph(limits, paragraphs, i);
      chunks, buf, bufLen := AddParagraph(limits, paragraphs[i], chunks, buf, bufLen, Ink(Flat(paragraphs[..i])));
    }
    assert paragraphs[..|paragraphs|] == paragraphs;
    if buf != [] {
      BufferFits(limits, buf, bufLen);
      BufferSaid(limits, chunks, buf, Ink(Flat(paragraphs)));
      chunks := chunks + [Join(PARAGRAPH, buf)];
    }
    EmptyBuffer(limits, chunks, Ink(Flat(paragraphs)));
  }

  lemma OneMoreParagraph(limits: Limits, paragraphs: seq<string>, i: nat)
    requires i < |paragraphs|
    ensures paragraphs[i] in paragraphs
    ensures Ink(Flat(paragraphs[..i + 1])) == Ink(Flat(paragraphs[..i])) + Ink(paragraphs[i])
    ensures Pack(limits, paragraphs[..i + 1]) == PackStep(limits, Pack(limits, paragraphs[..i]), paragraphs[i])
  {
    assert paragraphs[..i + 1] == paragraphs[..i] + [paragraphs[i]];
    PackSnoc(limits, paragraphs[..i], paragraphs[i]);
    FlatSnoc(paragraphs[..i], paragraphs[i]);
    InkConcat(Flat(paragraphs[..i]), paragraphs[i]);
  }

  lemma PiecesFit(limits: Limits, pieces: seq<string>)
    requires AllAtMost(pieces, Bound(limits))  || AllAtMost(pieces, limits.size + limits.overlap + 2)
    ensures AllFit(limits, pieces)
  {
    forall i | 0 <= i < |pieces| ensures Fits(limits, pieces[i]) {
      assert pieces[i] in pieces;
    }
  }

  lemma OneMoreSection(groups: seq<seq<string>>, i: nat)
    requires i < |groups|
    ensures Ink(Flat(Flat(groups[..i + 1]))) == Ink(Flat(Flat(groups[..i]))) + Ink(Strip(Join("\n", groups[i])))
  {
    assert groups[..i + 1] == groups[..i] + [groups[i]];
    FlatSnoc(groups[..i], groups[i]);
    InkFlatConcat(Flat(groups[..i]), groups[i]);
    InkJoin("\n", groups[i]);
    InkStrip(Join("\n", groups[i]));
  }

  /** The chunks of sections, each joined and stripped, blank ones left out. */
  function GroupChunks(limits: Limits, groups: seq<seq<string>>): seq<string>
  {
    if groups == [] then []
    else
      var section := Strip(Join("\n", groups[|groups| - 1]));
      GroupChunks(limits, groups[..|groups| - 1]) + if section == "" then [] else SectionChunks(limits, section)
  }

  lemma GroupChunksTake(limits: Limits, groups: seq<seq<string>>, i: nat)
    requires i < |groups|
    ensures var section := Strip(Join("\n", groups[i]));
            GroupChunks(limits, groups[..i + 1])
            == GroupChunks(limits, groups[..i]) + if section == "" then [] else SectionChunks(limits, section)
  {
    assert groups[..i + 1][..i] == groups[..i];
  }

  /** The chunks of a Markdown document. */
  ghost function MarkdownChunks(limits: Limits, text: string): seq<string>
  {
    var lines := SplitLines(text);
    GroupChunks(limits, Sections(lines, |lines|))
  }

  /** Nothing of the document is lost, and every chunk fits once stripped. */
  method ChunkMarkdown(limits: Limits, text: string) returns (chunks: seq<string>)
    requires ValidLimits(limits)
    ensures AllFit(limits, chunks) && Says(Carry(limits), chunks, Ink(text))
    ensures chunks == MarkdownChunks(limits, text)
    ensures DocumentMeant(limits, text, chunks)
  {
    DocumentIsMeant(limits, text);
    var lines := SplitLines(text);
    var groups := SplitSections(lines);
    chunks := [];
    SaysNothing(Carry(limits));
    for i := 0 to |groups|
      invariant AllFit(limits, chunks) && Says(Carry(limits), chunks, Ink(Flat(Flat(groups[..i]))))
      invariant chunks == GroupChunks(limits, groups[..i])
    {
      OneMoreSection(groups, i);
      GroupChunksTake(limits, groups, i);
      chunks := AddSection(limits, Strip(Join("\n", groups[i])), chunks, Ink(Flat(Flat(groups[..i]))));
    }
    assert groups[..|groups|] == groups && lines[..|lines|] == lines;
    SectionsPartition(lines, |lines|);
    InkOfLines(text);
  }

  method AddSection(limits: Limits, section: string, chunks: seq<string>, ghost ink: string)
    returns (chunks': seq<string>)
    requires ValidLimits(limits) && AllFit(limits, chunks) && Says(Carry(limits), chunks, ink)
    ensures AllFit(limits, chunks') && Says(Carry(limits), chunks', ink + Ink(section))
    ensures chunks' == chunks + if section == "" then [] else SectionChunks(limits, section)
  {
    chunks' := chunks;
    if section != "" {
      var more := SplitOversizedSection(limits, section);
      SaysConcat(Carry(limits), chunks, ink, more, Ink(section));
      chunks' := chunks + more;
    } else {
      assert ink + "" == ink;
    }
  }

  // ---------------------------------------------------------------- what packing yields

  /** Paragraphs that make one chunk, or one paragraph that is split as text. */
  datatype Bunch = Joined(paragraphs: seq<string>) | Long(paragraph: string)

  function ParagraphsOf(bunches: seq<Bunch>): seq<string>
  {
    if bunches == [] then []
    else
      var last := bunches[|bunches| - 1];
      ParagraphsOf(bunches[..|bunches| - 1]) + if last.Joined? then last.paragraphs else [last.paragraph]
  }

  function ChunksFrom(limits: Limits, bunches: seq<Bunch>): seq<string>
  {
    if bunches == [] then []
    else
      var last := bunches[|bunches| - 1];
      ChunksFrom(limits, bunches[..|bunches| - 1])
      + if last.Joined? then [Join("\n\n", last.paragraphs)] else ChunksOf(limits, last.paragraph)
  }

  /** Only a paragraph over the maximum is split; the others fit together, leading empty ones not counted. */
  predicate Proper(limits: Limits, b: Bunch)
  {
    match b
    case Joined(ps) =>
      && ps != [] && AllAtMost(ps, limits.maxChars) && |Join("\n\n", TrimEmpty(ps))| <= limits.maxChars
    case Long(p) => |p| > limits.maxChars
  }

  /** The next paragraph does not fit behind these. */
  predicate Overruns(limits: Limits, ps: seq<string>, next: string)
  {
    |Join("\n\n", TrimEmpty(ps))| + |"\n\n"| + |next| > limits.maxChars
  }

  /** A chunk is closed only where the next paragraph does not fit or is split. */
  predicate ClosedFor(limits: Limits, b: Bunch, next: Bunch)
  {
    b.Joined? && next.Joined? ==> next.paragraphs != [] && Overruns(limits, b.paragraphs, next.paragraphs[0])
  }

  ghost predicate Bunches(limits: Limits, bunches: seq<Bunch>)
  {
    && (forall i | 0 <= i < |bunches| :: Proper(limits, bunches[i]))
    && forall i, j | 0 <= i < j < |bunches| && j == i + 1 :: ClosedFor(limits, bunches[i], bunches[j])
  }

  lemma BunchesSnoc(limits: Limits, bunches: seq<Bunch>, b: Bunch)
    requires Bunches(limits, bunches) && Proper(limits, b)
    requires bunches == [] || ClosedFor(limits, bunches[|bunches| - 1], b)
    ensures Bunches(limits, bunches + [b])
  {
  }

  lemma FromSnoc(limits: Limits, bunches: seq<Bunch>, b: Bunch)
    ensures ParagraphsOf(bunches + [b]) == ParagraphsOf(bunches) + if b.Joined? then b.paragraphs else [b.paragraph]
    ensures ChunksFrom(limits, bunches + [b])
            == ChunksFrom(limits, bunches)
               + if b.Joined? then [Join("\n\n", b.paragraphs)] else ChunksOf(limits, b.paragraph)
  {
    assert (bunches + [b])[..|bunches|] == bunches;
  }

  /** The paragraphs read so far: closed bunches, and a buffer that continues them. */
  ghost predicate Open(limits: Limits, bunches: seq<Bunch>, s: Packing)
  {
    && Bunches(limits, bunches) && s.chunks == ChunksFrom(limits, bunches)
    && AllAtMost(s.buf, limits.maxChars) && Buffered(s.buf, s.bufLen) && s.bufLen <= limits.maxChars
    && (bunches != [] && bunches[|bunches| - 1].Joined? ==>
          s.buf != [] && Overruns(limits, bunches[|bunches| - 1].paragraphs, s.buf[0]))
  }

  lemma CloseBuffer(limits: Limits, bunches: seq<Bunch>, s: Packing)
    requires Open(limits, bunches, s) && s.buf != []
    ensures Bunches(limits, bunches + [Joined(s.buf)])
    ensures ChunksFrom(limits, bunches + [Joined(s.buf)]) == s.chunks + [Join(PARAGRAPH, s.buf)]
    ensures ParagraphsOf(bunches + [Joined(s.buf)]) == ParagraphsOf(bunches) + s.buf
  {
    BunchesSnoc(limits, bunches, Joined(s.buf));
    FromSnoc(limits, bunches, Joined(s.buf));
  }

  predicate Flushes(limits: Limits, s: Packing, p: string)
  {
    s.buf != [] && s.bufLen + |p| + 2 > limits.maxChars
  }

  lemma ShortPacked(limits: Limits, s: Packing, p: string)
    requires |p| <= limits.maxChars
    ensures PackStep(limits, s, p)
            == if Flushes(limits, s, p) then Packing(s.chunks + [Join(PARAGRAPH, s.buf)], [p], |p|)
               else Packing(s.chunks, s.buf + [p], s.bufLen + |p| + if s.bufLen != 0 then 2 else 0)
  {
    assert [] + [p] == [p];
  }

  lemma ShortFits(limits: Limits, bunches: seq<Bunch>, s: Packing, p: string)
    requires Open(limits, bunches, s) && |p| <= limits.maxChars && !Flushes(limits, s, p)
    ensures Open(limits, bunches, Packing(s.chunks, s.buf + [p], s.bufLen + |p| + if s.bufLen != 0 then 2 else 0))
    ensures ParagraphsOf(bunches) + (s.buf + [p]) == ParagraphsOf(bunches) + s.buf + [p]
  {
    BufferGrows(s.buf, s.bufLen, p);
    assert s.buf != [] ==> (s.buf + [p])[0] == s.buf[0];
  }

  lemma ShortOverruns(limits: Limits, bunches: seq<Bunch>, s: Packing, p: string)
    requires Open(limits, bunches, s) && |p| <= limits.maxChars && Flushes(limits, s, p)
    ensures Open(limits, bunches + [Joined(s.buf)], Packing(s.chunks + [Join(PARAGRAPH, s.buf)], [p], |p|))
    ensures ParagraphsOf(bunches + [Joined(s.buf)]) + [p] == ParagraphsOf(bunches) + s.buf + [p]
  {
    CloseBuffer(limits, bunches, s);
    BufferGrows([], 0, p);
    assert [] + [p] == [p];
  }

  /** A short paragraph joins the buffer, or opens a new one where it does not fit. */
  lemma ShortStep(limits: Limits, bunches: seq<Bunch>, s: Packing, p: string) returns (bunches': seq<Bunch>)
    requires Open(limits, bunches, s) && |p| <= limits.maxChars
    ensures var s' := PackStep(limits, s, p);
            Open(limits, bunches', s') && ParagraphsOf(bunches') + s'.buf == ParagraphsOf(bunches) + s.buf + [p]
  {
    ShortPacked(limits, s, p);
    if Flushes(limits, s, p) {
      ShortOverruns(limits, bunches, s, p);
      bunches' := bunches + [Joined(s.buf)];
    } else {
      ShortFits(limits, bunches, s, p);
      bunches' := bunches;
    }
  }

  lemma LongPacked(limits: Limits, s: Packing, p: string)
    requires |p| > limits.maxChars && Buffered(s.buf, s.bufLen)
    ensures PackStep(limits, s, p)
            == Packing((if s.buf == [] then s.chunks else s.chunks + [Join(PARAGRAPH, s.buf)]) + ChunksOf(limits, p),
                       [], 0)
  {
  }

  lemma AddLong(limits: Limits, closed: seq<Bunch>, p: string)
    requires Bunches(limits, closed) && |p| > limits.maxChars
    ensures Open(limits, closed + [Long(p)], Packing(ChunksFrom(limits, closed) + ChunksOf(limits, p), [], 0))
    ensures ParagraphsOf(closed + [Long(p)]) + [] == ParagraphsOf(closed) + [p]
  {
    BunchesSnoc(limits, closed, Long(p));
    FromSnoc(limits, closed, Long(p));
  }

  /** A long paragraph closes the buffer and is split. */
  lemma LongStep(limits: Limits, bunches: seq<Bunch>, s: Packing, p: string) returns (bunches': seq<Bunch>)
    requires Open(limits, bunches, s) && |p| > limits.maxChars
    ensures var s' := PackStep(limits, s, p);
            Open(limits, bunches', s') && ParagraphsOf(bunches') + s'.buf == ParagraphsOf(bunches) + s.buf + [p]
  {
    LongPacked(limits, s, p);
    if s.buf == [] {
      assert ParagraphsOf(bunches) + [] == ParagraphsOf(bunches);
      AddLong(limits, bunches, p);
      bunches' := bunches + [Long(p)];
    } else {
      CloseBuffer(limits, bunches, s);
      AddLong(limits, bunches + [Joined(s.buf)], p);
      bunches' := bunches + [Joined(s.buf)] + [Long(p)];
    }
  }

  lemma {:induction false} PackBunches(limits: Limits, paragraphs: seq<string>) returns (bunches: seq<Bunch>)
    ensures Open(limits, bunches, Pack(limits, paragraphs))
    ensures ParagraphsOf(bunches) + Pack(limits, paragraphs).buf == paragraphs
  {
    if paragraphs == [] {
      bunches := [];
    } else {
      var init, p := paragraphs[..|paragraphs| - 1], paragraphs[|paragraphs| - 1];
      assert paragraphs == init + [p];
      bunches := PackBunches(limits, init);
      if |p| <= limits.maxChars {
        bunches := ShortStep(limits, bunches, Pack(limits, init), p);
      } else {
        bunches := LongStep(limits, bunches, Pack(limits, init), p);
      }
    }
  }

  /**
   * What becomes of a section, said of its paragraphs: it is one chunk if it fits; otherwise its
   * paragraphs, in order, are joined as long as the next one fits, and one that is over the maximum
   * by itself is split as text.
   */
  ghost predicate SectionMeant(limits: Limits, section: string, chunks: seq<string>)
  {
    if |section| <= limits.maxChars then chunks == [section]
    else exists bunches ::
      && Bunches(limits, bunches) && ParagraphsOf(bunches) == Split(section, "\n\n")
      && chunks == ChunksFrom(limits, bunches)
  }

  lemma SectionIsMeant(limits: Limits, section: string)
    ensures SectionMeant(limits, section, SectionChunks(limits, section))
  {
    var paragraphs := Split(section, PARAGRAPH);
    var s := Pack(limits, paragraphs);
    var bunches := PackBunches(limits, paragraphs);
    if s.buf != [] {
      CloseBuffer(limits, bunches, s);
      bunches := bunches + [Joined(s.buf)];
    }
    assert Bunches(limits, bunches) && ParagraphsOf(bunches) == paragraphs;
  }

  /** The chunks of each section of a document; one that is blank has none. */
  ghost predicate SectionsMeant(limits: Limits, groups: seq<seq<string>>, parts: seq<seq<string>>)
  {
    |parts| == |groups| && forall i | 0 <= i < |groups| ::
      var section := Strip(Join("\n", groups[i]));
      if section == "" then parts[i] == [] else SectionMeant(limits, section, parts[i])
  }

  function PartsFrom(limits: Limits, groups: seq<seq<string>>): (parts: seq<seq<string>>)
    ensures |parts| == |groups|
  {
    seq(|groups|, i requires 0 <= i < |groups| =>
      var section := Strip(Join("\n", groups[i])); if section == "" then [] else SectionChunks(limits, section))
  }

  lemma {:induction false} GroupChunksAreParts(limits: Limits, groups: seq<seq<string>>)
    ensures GroupChunks(limits, groups) == Flat(PartsFrom(limits, groups))
  {
    if groups == [] {
      assert PartsFrom(limits, groups) == [];
    } else {
      var n := |groups| - 1;
      GroupChunksAreParts(limits, groups[..n]);
      assert PartsFrom(limits, groups)[..n] == PartsFrom(limits, groups[..n]);
    }
  }

  lemma PartsAreMeant(limits: Limits, groups: seq<seq<string>>)
    ensures SectionsMeant(limits, groups, PartsFrom(limits, groups))
  {
    forall i | 0 <= i < |groups|
      ensures var section := Strip(Join("\n", groups[i]));
              if section == "" then PartsFrom(limits, groups)[i] == []
              else SectionMeant(limits, section, PartsFrom(limits, groups)[i])
    {
      SectionIsMeant(limits, Strip(Join("\n", groups[i])));
    }
  }

  /** The chunks of a Markdown document are those of its sections, which begin at the headers outside code blocks. */
  ghost predicate DocumentMeant(limits: Limits, text: string, chunks: seq<string>)
  {
    exists groups, parts ::
      Sectioned(SplitLines(text), groups) && SectionsMeant(limits, groups, parts) && chunks == Flat(parts)
  }

  lemma DocumentIsMeant(limits: Limits, text: string)
    ensures DocumentMeant(limits, text, MarkdownChunks(limits, text))
  {
    var lines := SplitLines(text);
    var groups := Sections(lines, |lines|);
    SectionsMeaning(lines);
    PartsAreMeant(limits, groups);
    GroupChunksAreParts(limits, groups);
  }

  // ---------------------------------------------------------------- when the maximum is kept

  /** Within the maximum once stripped. */
  predicate StrippedWithin(chunks: seq<string>, most: nat)
  {
    forall c | c in chunks :: |Strip(c)| <= most
  }

  lemma WithinConcat(a: seq<string>, b: seq<string>, most: nat)
    requires StrippedWithin(a, most) && StrippedWithin(b, most)
    ensures StrippedWithin(a + b, most)
  {
  }

  lemma AtMostIsWithin(chunks: seq<string>, most: nat, more: nat)
    requires AllAtMost(chunks, most) && most <= more
    ensures StrippedWithin(chunks, more)
  {
  }

  /** The settings under which a split paragraph cannot outgrow the maximum. */
  predicate Ample(limits: Limits)
  {
    limits.overlap == 0 || limits.size + limits.overlap + 1 <= limits.maxChars
  }

  ghost predicate PackingWithin(limits: Limits, s: Packing)
  {
    && StrippedWithin(s.chunks, limits.maxChars) && Buffered(s.buf, s.bufLen) && s.bufLen <= limits.maxChars
    && (s.buf == [] ==> s.bufLen == 0)
  }

  lemma BufferWithin(limits: Limits, chunks: seq<string>, buf: seq<string>, bufLen: nat)
    requires StrippedWithin(chunks, limits.maxChars) && Buffered(buf, bufLen) && bufLen <= limits.maxChars
    ensures StrippedWithin(chunks + [Join(PARAGRAPH, buf)], limits.maxChars)
  {
    TrimmedStrip(buf);
    WithinConcat(chunks, [Join(PARAGRAPH, buf)], limits.maxChars);
  }

  lemma FlushedWithin(limits: Limits, s: Packing, p: string)
    requires PackingWithin(limits, s)
    ensures var t := Flushed(limits, s, p);
      && PackingWithin(limits, t)
      && (t.buf == [] || t.bufLen + |p| + 2 <= limits.maxChars)
  {
    if s.buf != [] {
      BufferWithin(limits, s.chunks, s.buf, s.bufLen);
    }
  }

  lemma PackStepWithin(limits: Limits, s: Packing, p: string)
    requires ValidLimits(limits) && Ample(limits) && PackingWithin(limits, s) && !Contains(p, PARAGRAPH)
    ensures PackingWithin(limits, PackStep(limits, s, p))
  {
    var t := Flushed(limits, s, p);
    FlushedWithin(limits, s, p);
    if |p| > limits.maxChars {
      ParagraphAtMost(limits, p);
      AtMostIsWithin(ChunksOf(limits, p), Most(limits, 1), limits.maxChars);
      WithinConcat(t.chunks, ChunksOf(limits, p), limits.maxChars);
    } else {
      BufferGrows(t.buf, t.bufLen, p);
    }
  }

  lemma {:induction false} PackWithin(limits: Limits, paragraphs: seq<string>)
    requires ValidLimits(limits) && Ample(limits) && forall p | p in paragraphs :: !Contains(p, PARAGRAPH)
    ensures PackingWithin(limits, Pack(limits, paragraphs))
  {
    if paragraphs != [] {
      var init, p := paragraphs[..|paragraphs| - 1], paragraphs[|paragraphs| - 1];
      assert p in paragraphs && forall q | q in init :: q in paragraphs;
      PackWithin(limits, init);
      PackStepWithin(limits, Pack(limits, init), p);
    }
  }

  lemma SectionWithin(limits: Limits, section: string)
    requires ValidLimits(limits) && Ample(limits)
    ensures StrippedWithin(SectionChunks(limits, section), limits.maxChars)
  {
    if |section| > limits.maxChars {
      var s := Pack(limits, Split(section, PARAGRAPH));
      SplitFree(section, PARAGRAPH);
      PackWithin(limits, Split(section, PARAGRAPH));
      BufferWithin(limits, s.chunks, s.buf, s.bufLen);
    }
  }

  lemma {:induction false} GroupsWithin(limits: Limits, groups: seq<seq<string>>)
    requires ValidLimits(limits) && Ample(limits)
    ensures StrippedWithin(GroupChunks(limits, groups), limits.maxChars)
  {
    if groups != [] {
      var init, section := groups[..|groups| - 1], Strip(Join("\n", groups[|groups| - 1]));
      GroupsWithin(limits, init);
      SectionWithin(limits, section);
      WithinConcat(GroupChunks(limits, init), if section == "" then [] else SectionChunks(limits, section),
                   limits.maxChars);
    }
  }

  // ---------------------------------------------------------------- and when it is not

  function Repeated(c: char, n: nat): (r: string)
    ensures |r| == n && forall i | 0 <= i < n :: r[i] == c
  {
    seq(n, i => c)
  }

  /** As long a word as the overlap carries, and one of full size. */
  function Wide(limits: Limits): string
  {
    Repeated('a', limits.overlap) + " " + Repeated('b', limits.size)
  }

  lemma WideHolds(limits: Limits)
    ensures |Wide(limits)| == limits.overlap + 1 + limits.size
    ensures forall c | c in Wide(limits) :: c == 'a' || c == 'b' || c == ' '
  {
  }

  lemma SolidEnds(text: string)
    requires text != "" && !IsSpace(text[0]) && !IsSpace(text[|text| - 1])
    ensures Strip(text) == text
  {
  }

  lemma WideIsStripped(limits: Limits)
    requires limits.overlap > 0 && limits.size > 0
    ensures Strip(Wide(limits)) == Wide(limits) != ""
  {
    WideHolds(limits);
    var wide := Wide(limits);
    assert wide[0] == 'a' && wide[|wide| - 1] == 'b';
    SolidEnds(wide);
  }

  lemma NotIn(text: string, separator: string)
    requires separator != "" && separator[0] !in text
    ensures !Contains(text, separator)
  {
    forall i | 0 <= i <= |text| ensures !StartsWith(text[i..], separator) {
      assert i < |text| ==> text[i..][0] == text[i] && text[i] in text;
    }
  }

  lemma WideChooses(limits: Limits)
    ensures Chosen(Wide(limits), SEPARATORS) == 2
  {
    var wide := Wide(limits);
    WideHolds(limits);
    NotIn(wide, "\n\n");
    NotIn(wide, "\n");
    assert wide[limits.overlap..][0] == ' ' && StartsWith(wide[limits.overlap..], " ");
    assert Contains(wide, " ");
    ChosenIs(wide, SEPARATORS, 2);
  }

  lemma TwoNotEmpty(a: string, b: string)
    requires a != "" && b != ""
    ensures NonEmpty([a, b]) == [a, b]
  {
    assert [a, b][..1] == [a] && [a][..0] == [];
    assert NonEmpty([]) == [] && NonEmpty([a]) == [a];
  }

  lemma WideParts(limits: Limits)
    requires limits.overlap > 0 && limits.size > 0
    ensures Parts(Wide(limits), " ") == [Repeated('a', limits.overlap), Repeated('b', limits.size)]
  {
    var a, b := Repeated('a', limits.overlap), Repeated('b', limits.size);
    JoinTwo(" ", a, b);
    SplitJoin(' ', [a, b]);
    TwoNotEmpty(a, b);
  }

  /** Two small parts of which the first is just carried over. */
  lemma CarriedWhole(limits: Limits, a: string, b: string)
    requires |a| == limits.overlap && |b| == limits.size > 0
    ensures Merged(limits, [a, b], " ") == [a] + [a + " " + b]
  {
    var parts := [a, b];
    JoinTwo(" ", a, b);
    assert parts[0..1] == [a] && parts[0..2] == parts && parts[0..] == parts;
    assert MergeUpto(limits, parts, " ", 0) == Merge([], 0);
    assert MergeUpto(limits, parts, " ", 1) == Merge([], 0);
    assert NextStart(parts, " ", 0, 1, limits.overlap) == 0;
    assert MergeUpto(limits, parts, " ", 2) == Merge([a], 0);
  }

  lemma WideChunks(limits: Limits)
    requires ValidLimits(limits) && limits.overlap > 0
    ensures ChunksOf(limits, Wide(limits)) == [Repeated('a', limits.overlap)] + [Wide(limits)]
  {
    var a, b := Repeated('a', limits.overlap), Repeated('b', limits.size);
    WideIsStripped(limits);
    WideChooses(limits);
    WideParts(limits);
    SmallPartsMerged(limits, Wide(limits), SEPARATORS);
    CarriedWhole(limits, a, b);
  }

  lemma PackOne(limits: Limits, p: string)
    requires |p| > limits.maxChars
    ensures Packed(limits, [p]) == ChunksOf(limits, p)
  {
    assert [p][..0] == [];
    assert Pack(limits, []) == Packing([], [], 0);
    assert [] + ChunksOf(limits, p) == ChunksOf(limits, p);
  }

  /**
   * Where the settings leave no room, a section longer than the maximum comes out whole: with size
   * 2, overlap 1 and maximum 2, the section "a bb".
   */
  lemma WideSectionExceeds(limits: Limits)
    requires ValidLimits(limits) && !Ample(limits)
    ensures SectionChunks(limits, Wide(limits)) == [Repeated('a', limits.overlap)] + [Wide(limits)]
    ensures |Strip(Wide(limits))| == |Wide(limits)| > limits.maxChars
  {
    WideHolds(limits);
    WideIsStripped(limits);
    SplitNone(Wide(limits));
    PackOne(limits, Wide(limits));
    WideChunks(limits);
  }

  lemma OneLine(text: string)
    requires text != "" && Unbroken(text)
    ensures SplitLines(text) == [text] && Sections([text], 1) == [[text]]
  {
    assert forall i | 0 <= i < |text| :: text[i] in text;
  }

  /** The same text is a Markdown document of one section. */
  lemma WideDocumentExceeds(limits: Limits)
    requires ValidLimits(limits) && !Ample(limits)
    ensures Wide(limits) in MarkdownChunks(limits, Wide(limits))
  {
    var wide := Wide(limits);
    WideHolds(limits);
    WideIsStripped(limits);
    OneLine(wide);
    WideSectionExceeds(limits);
    assert [[wide]][..0] == [];
    assert Join("\n", [wide]) == wide;
    assert GroupChunks(limits, [[wide]]) == SectionChunks(limits, wide);
    assert SectionChunks(limits, wide)[1] == wide;
  }

  /**
   * Every chunk of every section, and of every Markdown document, keeps to the maximum once
   * stripped, exactly when nothing is carried over or the maximum has room for a full-size part
   * behind a full overlap.
   */
  lemma MaximumKeptIff(limits: Limits)
    requires ValidLimits(limits)
    ensures (forall section :: StrippedWithin(SectionChunks(limits, section), limits.maxChars)) <==> Ample(limits)
    ensures (forall text :: StrippedWithin(MarkdownChunks(limits, text), limits.maxChars)) <==> Ample(limits)
  {
    var wide := Wide(limits);
    if Ample(limits) {
      forall text ensures StrippedWithin(SectionChunks(limits, text), limits.maxChars)
                  ensures StrippedWithin(MarkdownChunks(limits, text), limits.maxChars) {
        SectionWithin(limits, text);
        GroupsWithin(limits, Sections(SplitLines(text), |SplitLines(text)|));
      }
    } else {
      WideSectionExceeds(limits);
      WideDocumentExceeds(limits);
      assert SectionChunks(limits, wide)[1] == wide;
      assert !StrippedWithin(SectionChunks(limits, wide), limits.maxChars);
      assert !StrippedWithin(MarkdownChunks(limits, wide), limits.maxChars);
    }
  }

  // ---------------------------------------------------------------- Python

  datatype Tagged = Tagged(text: string, defName: Option<string>)

  predicate TaggedFit(limits: Limits, chunks: seq<Tagged>)
  {
    forall i | 0 <= i < |chunks| :: Fits(limits, chunks[i].text)
  }

  function Tag(chunks: seq<string>, defName: Option<string>): (r: seq<Tagged>)
    ensures |r| == |chunks| && forall i | 0 <= i < |r| :: r[i] == Tagged(chunks[i], defName)
  {
    seq(|chunks|, i requires 0 <= i < |chunks| => Tagged(chunks[i], defName))
  }

  function TextsOf(chunks: seq<Tagged>): (r: seq<string>)
    ensures |r| == |chunks| && forall i | 0 <= i < |r| :: r[i] == chunks[i].text
  {
    seq(|chunks|, i requires 0 <= i < |chunks| => chunks[i].text)
  }

  lemma TextsConcat(a: seq<Tagged>, b: seq<Tagged>)
    ensures TextsOf(a + b) == TextsOf(a) + TextsOf(b)
  {
  }

  // `lines` are those of str.splitlines, `rows` those of the parser.
  function GapText(lines: seq<string>, from: nat, to: nat): Tagged
  {
    Tagged(Strip(Flat(Slice(lines, from, to))), None)
  }

  function OwnText(lines: seq<string>, rows: seq<string>, node: Statement): Tagged
  {
    var source := SourceSegment(rows, node);
    Tagged(Strip(if source != "" then source else Flat(Slice(lines, node.first - 1, node.last))), node.defName)
  }

  function GapSegment(lines: seq<string>, init: seq<Statement>, node: Statement): seq<Tagged>
  {
    if node.first > PrevEnd(init) + 1 then [GapText(lines, PrevEnd(init), node.first - 1)] else []
  }

  function OwnSegment(lines: seq<string>, rows: seq<string>, node: Statement): seq<Tagged>
  {
    if node.isImport then [] else [OwnText(lines, rows, node)]
  }

  /** The texts to emit, in order: the gap before each statement and the statement itself unless an import. */
  function Segments(lines: seq<string>, rows: seq<string>, statements: seq<Statement>): seq<Tagged>
  {
    if statements == [] then []
    else
      var init, node := statements[..|statements| - 1], statements[|statements| - 1];
      (Segments(lines, rows, init) + GapSegment(lines, init, node)) + OwnSegment(lines, rows, node)
  }

  function LastSegment(lines: seq<string>, statements: seq<Statement>): seq<Tagged>
  {
    if PrevEnd(statements) < |lines| then [GapText(lines, PrevEnd(statements), |lines|)] else []
  }

  function AllSegments(text: string, statements: seq<Statement>): seq<Tagged>
  {
    Segments(Lines(Splitlines, text), Lines(Parser, text), statements)
    + LastSegment(Lines(Splitlines, text), statements)
  }

  /** The chunks of one segment carry its tag and say what it says; one that fits is a single chunk. */
  ghost predicate PiecesOf(limits: Limits, segment: Tagged, pieces: seq<Tagged>)
  {
    && (forall i | 0 <= i < |pieces| :: pieces[i].defName == segment.defName)
    && Says(Carry(limits), TextsOf(pieces), Ink(segment.text))
    && (|segment.text| <= limits.maxChars ==> pieces == if segment.text == "" then [] else [segment])
    && (segment.text != "" && Strip(segment.text) == segment.text ==> pieces != [])
  }

  ghost predicate PartsOf(limits: Limits, segments: seq<Tagged>, parts: seq<seq<Tagged>>)
  {
    |parts| == |segments| && forall i | 0 <= i < |parts| :: PiecesOf(limits, segments[i], parts[i])
  }

  ghost predicate FromSegments(limits: Limits, segments: seq<Tagged>, chunks: seq<Tagged>)
  {
    exists parts: seq<seq<Tagged>> :: PartsOf(limits, segments, parts) && chunks == Flat(parts)
  }

  lemma FromNoSegments(limits: Limits)
    ensures FromSegments(limits, [], [])
  {
    assert PartsOf(limits, [], []);
    assert Flat<Tagged>([]) == [];
  }

  lemma PartsSnoc(limits: Limits, segments: seq<Tagged>, parts: seq<seq<Tagged>>, segment: Tagged, pieces: seq<Tagged>)
    requires PartsOf(limits, segments, parts) && PiecesOf(limits, segment, pieces)
    ensures PartsOf(limits, segments + [segment], parts + [pieces])
  {
    var all, more := parts + [pieces], segments + [segment];
    forall i | 0 <= i < |all| ensures PiecesOf(limits, more[i], all[i]) {
      if i < |parts| { assert all[i] == parts[i] && more[i] == segments[i]; }
    }
  }

  lemma FromSegmentsSnoc(limits: Limits, segments: seq<Tagged>, chunks: seq<Tagged>, segment: Tagged,
                         pieces: seq<Tagged>)
    requires FromSegments(limits, segments, chunks) && PiecesOf(limits, segment, pieces)
    ensures FromSegments(limits, segments + [segment], chunks + pieces)
  {
    var parts: seq<seq<Tagged>> :| PartsOf(limits, segments, parts) && chunks == Flat(parts);
    PartsSnoc(limits, segments, parts, segment, pieces);
    FlatSnoc(parts, pieces);
  }

  lemma {:induction false} SegmentsSay(limits: Limits, segments: seq<Tagged>, parts: seq<seq<Tagged>>)
    requires PartsOf(limits, segments, parts)
    ensures Says(Carry(limits), TextsOf(Flat(parts)), Ink(Flat(TextsOf(segments))))
  {
    if parts == [] {
      SaysNothing(Carry(limits));
      assert TextsOf(Flat(parts)) == [] && TextsOf(segments) == [];
    } else {
      var n := |parts| - 1;
      SegmentsSay(limits, segments[..n], parts[..n]);
      TextsConcat(Flat(parts[..n]), parts[n]);
      SaysConcat(Carry(limits), TextsOf(Flat(parts[..n])), Ink(Flat(TextsOf(segments[..n]))),
                 TextsOf(parts[n]), Ink(segments[n].text));
      assert TextsOf(segments)[..n] == TextsOf(segments[..n]);
      InkConcat(Flat(TextsOf(segments[..n])), segments[n].text);
    }
  }

  /** Emit one segment behind what is out already. */
  method Emit(limits: Limits, segment: Tagged, out: seq<Tagged>, ghost before: seq<Tagged>) returns (out': seq<Tagged>)
    requires ValidLimits(limits) && TaggedFit(limits, out) && FromSegments(limits, before, out)
    ensures TaggedFit(limits, out') && FromSegments(limits, before + [segment], out')
  {
    var pieces: seq<Tagged> := [];
    if segment.text != "" {
      pieces := EmitPieces(limits, segment);
    } else {
      SaysNothing(Carry(limits));
      assert TextsOf([]) == [] && Ink("") == "";
    }
    FromSegmentsSnoc(limits, before, out, segment, pieces);
    out' := out + pieces;
  }

  method EmitPieces(limits: Limits, segment: Tagged) returns (pieces: seq<Tagged>)
    requires ValidLimits(limits) && segment.text != ""
    ensures TaggedFit(limits, pieces) && PiecesOf(limits, segment, pieces)
  {
    var texts := EmitTexts(limits, segment.text);
    pieces := Tag(texts, segment.defName);
    assert TextsOf(pieces) == texts;
    if Strip(segment.text) == segment.text { SaidIsSomething(limits, segment.text, texts); }
  }

  method EmitTexts(limits: Limits, text: string) returns (texts: seq<string>)
    requires ValidLimits(limits) && text != ""
    ensures AllFit(limits, texts) && Says(Carry(limits), texts, Ink(text))
    ensures |text| <= limits.maxChars ==> texts == [text]
  {
    texts := [text];
    if |text| > limits.maxChars {
      ghost var news;
      texts, news := ChunkText(limits, text);
      TextSays(limits, text, texts, news);
    } else {
      SaysOne(Carry(limits), text);
    }
    PiecesFit(limits, texts);
  }

  lemma SaidIsSomething(limits: Limits, text: string, chunks: seq<string>)
    requires Says(Carry(limits), chunks, Ink(text)) && text != "" && Strip(text) == text
    ensures chunks != []
  {
    NoInkIff(text);
  }

  predicate Speaks(segments: seq<Tagged>)
  {
    exists i | 0 <= i < |segments| :: segments[i].text != ""
  }

  predicate AllStripped(segments: seq<Tagged>)
  {
    forall i | 0 <= i < |segments| :: Strip(segments[i].text) == segments[i].text
  }

  lemma {:induction false} StripTwice(text: string)
    ensures Strip(Strip(text)) == Strip(text)
  {
    var s := Strip(text);
    if s != "" { assert LStrip(s) == s && RStrip(s) == s; }
  }

  lemma StrippedConcat(a: seq<Tagged>, b: seq<Tagged>)
    ensures AllStripped(a) && AllStripped(b) ==> AllStripped(a + b)
  {
  }

  lemma OneStripped(text: string, defName: Option<string>)
    ensures AllStripped([Tagged(Strip(text), defName)])
  {
    StripTwice(text);
  }

  lemma GapStripped(lines: seq<string>, from: nat, to: nat)
    ensures AllStripped([GapText(lines, from, to)])
  {
    OneStripped(Flat(Slice(lines, from, to)), None);
  }

  lemma OwnStripped(lines: seq<string>, rows: seq<string>, node: Statement)
    ensures AllStripped(OwnSegment(lines, rows, node))
  {
    var source := SourceSegment(rows, node);
    OneStripped(if source != "" then source else Flat(Slice(lines, node.first - 1, node.last)), node.defName);
  }

  lemma StrippedThree(a: seq<Tagged>, b: seq<Tagged>, c: seq<Tagged>)
    requires AllStripped(a) && AllStripped(b) && AllStripped(c)
    ensures AllStripped((a + b) + c)
  {
    StrippedConcat(a, b);
    StrippedConcat(a + b, c);
  }

  lemma {:induction false} SegmentsStripped(lines: seq<string>, rows: seq<string>, statements: seq<Statement>)
    ensures AllStripped(Segments(lines, rows, statements))
  {
    if statements != [] {
      var init, node := statements[..|statements| - 1], statements[|statements| - 1];
      SegmentsStripped(lines, rows, init);
      GapStripped(lines, PrevEnd(init), node.first - 1);
      OwnStripped(lines, rows, node);
      StrippedThree(Segments(lines, rows, init), GapSegment(lines, init, node), OwnSegment(lines, rows, node));
    }
  }

  lemma AllSegmentsStripped(text: string, statements: seq<Statement>)
    ensures AllStripped(AllSegments(text, statements))
  {
    var lines := Lines(Splitlines, text);
    SegmentsStripped(lines, Lines(Parser, text), statements);
    GapStripped(lines, PrevEnd(statements), |lines|);
    StrippedConcat(Segments(lines, Lines(Parser, text), statements), LastSegment(lines, statements));
  }

  lemma {:induction false} FlatEmptyIff(parts: seq<seq<Tagged>>)
    ensures Flat(parts) == [] <==> forall i | 0 <= i < |parts| :: parts[i] == []
  {
    if parts != [] { FlatEmptyIff(parts[..|parts| - 1]); }
  }

  /** Nothing is emitted exactly when no segment has any text. */
  lemma ChunksIffSpeaks(limits: Limits, segments: seq<Tagged>, chunks: seq<Tagged>)
    requires FromSegments(limits, segments, chunks) && AllStripped(segments)
    ensures chunks != [] <==> Speaks(segments)
    ensures Says(Carry(limits), TextsOf(chunks), Ink(Flat(TextsOf(segments))))
  {
    var parts: seq<seq<Tagged>> :| PartsOf(limits, segments, parts) && chunks == Flat(parts);
    SegmentsSay(limits, segments, parts);
    FlatEmptyIff(parts);
    forall i | 0 <= i < |parts| ensures parts[i] == [] <==> segments[i].text == "" {
      assert PiecesOf(limits, segments[i], parts[i]);
    }
  }

  /** What the chunks of a Python file have to say; `tree` is None when it does not parse. */
  function PythonText(text: string, tree: Option<seq<Statement>>): string
  {
    if tree.Some? && Speaks(AllSegments(text, tree.value)) then Flat(TextsOf(AllSegments(text, tree.value))) else text
  }

  lemma GapIs(lines: seq<string>, init: seq<Statement>, node: Statement, before: seq<Tagged>)
    ensures before + GapSegment(lines, init, node)
            == if node.first > PrevEnd(init) + 1 then before + [GapText(lines, PrevEnd(init), node.first - 1)]
               else before
  {
  }

  method EmitGap(limits: Limits, lines: seq<string>, ghost init: seq<Statement>, prevEnd: nat, node: Statement,
                 out: seq<Tagged>, ghost before: seq<Tagged>)
    returns (out': seq<Tagged>)
    requires ValidLimits(limits) && TaggedFit(limits, out) && prevEnd == PrevEnd(init)
             && FromSegments(limits, before, out)
    ensures TaggedFit(limits, out') && FromSegments(limits, before + GapSegment(lines, init, node), out')
  {
    out' := out;
    GapIs(lines, init, node, before);
    if node.first > prevEnd + 1 {
      out' := Emit(limits, GapText(lines, prevEnd, node.first - 1), out, before);
    }
  }

  method EmitOwn(limits: Limits, lines: seq<string>, rows: seq<string>, node: Statement, out: seq<Tagged>,
                 ghost before: seq<Tagged>)
    returns (out': seq<Tagged>)
    requires ValidLimits(limits) && TaggedFit(limits, out) && FromSegments(limits, before, out)
    ensures TaggedFit(limits, out') && FromSegments(limits, before + OwnSegment(lines, rows, node), out')
  {
    out' := out;
    if !node.isImport {
      out' := Emit(limits, OwnText(lines, rows, node), out, before);
    } else {
      assert before + [] == before;
    }
  }

  method EmitStatement(limits: Limits, lines: seq<string>, rows: seq<string>, ghost init: seq<Statement>, prevEnd: nat,
                       node: Statement, out: seq<Tagged>)
    returns (out': seq<Tagged>)
    requires ValidLimits(limits) && TaggedFit(limits, out) && prevEnd == PrevEnd(init)
    requires FromSegments(limits, Segments(lines, rows, init), out)
    ensures TaggedFit(limits, out') && FromSegments(limits, Segments(lines, rows, init + [node]), out')
  {
    ghost var before := Segments(lines, rows, init);
    out' := EmitGap(limits, lines, init, prevEnd, node, out, before);
    out' := EmitOwn(limits, lines, rows, node, out', before + GapSegment(lines, init, node));
    SegmentsSnoc(lines, rows, init, node);
  }

  lemma SegmentsSnoc(lines: seq<string>, rows: seq<string>, init: seq<Statement>, node: Statement)
    ensures Segments(lines, rows, init + [node])
            == (Segments(lines, rows, init) + GapSegment(lines, init, node)) + OwnSegment(lines, rows, node)
  {
    assert (init + [node])[..|init|] == init;
  }

  lemma TakeStatement(statements: seq<Statement>, i: nat)
    requires i < |statements|
    ensures statements[..i] + [statements[i]] == statements[..i + 1]
            && PrevEnd(statements[..i + 1]) == statements[i].last
  {
  }

  method EmitStatements(limits: Limits, lines: seq<string>, rows: seq<string>, statements: seq<Statement>)
    returns (chunks: seq<Tagged>, prevEnd: nat)
    requires ValidLimits(limits)
    ensures TaggedFit(limits, chunks) && FromSegments(limits, Segments(lines, rows, statements), chunks)
    ensures prevEnd == PrevEnd(statements)
  {
    chunks, prevEnd := [], 0;
    FromNoSegments(limits);
    for i := 0 to |statements|
      invariant prevEnd == PrevEnd(statements[..i])
      invariant TaggedFit(limits, chunks) && FromSegments(limits, Segments(lines, rows, statements[..i]), chunks)
    {
      chunks := EmitStatement(limits, lines, rows, statements[..i], prevEnd, statements[i], chunks);
      TakeStatement(statements, i);
      prevEnd := statements[i].last;
    }
    assert statements[..|statements|] == statements;
  }

  /** The statements of a file that parses, what lies between them, and what follows the last. */
  method EmitAll(limits: Limits, text: string, statements: seq<Statement>) returns (chunks: seq<Tagged>)
    requires ValidLimits(limits)
    ensures TaggedFit(limits, chunks) && FromSegments(limits, AllSegments(text, statements), chunks)
  {
    var lines, rows := Lines(Splitlines, text), Lines(Parser, text);
    var prevEnd;
    chunks, prevEnd := EmitStatements(limits, lines, rows, statements);
    if prevEnd < |lines| {
      chunks := Emit(limits, GapText(lines, prevEnd, |lines|), chunks, Segments(lines, rows, statements));
    } else {
      assert Segments(lines, rows, statements) + [] == Segments(lines, rows, statements);
    }
  }

  /**
   * `tree` is what the parser makes of the text, None when it does not parse.  The chunks are
   * those of the segments in order; a file without segments is chunked as text.
   */
  method ChunkPython(limits: Limits, text: string, tree: Option<seq<Statement>>) returns (chunks: seq<Tagged>)
    requires ValidLimits(limits)
    ensures TaggedFit(limits, chunks)
    ensures Says(Carry(limits), TextsOf(chunks), Ink(PythonText(text, tree)))
    ensures if tree.Some? && Speaks(AllSegments(text, tree.value))
            then FromSegments(limits, AllSegments(text, tree.value), chunks)
            else forall i | 0 <= i < |chunks| :: chunks[i].defName == None
  {
    chunks := [];
    if tree.Some? {
      chunks := EmitAll(limits, text, tree.value);
      AllSegmentsStripped(text, tree.value);
      ChunksIffSpeaks(limits, AllSegments(text, tree.value), chunks);
    }
    if chunks == [] {
      chunks := ChunkUntagged(limits, text);
    }
  }

  method ChunkUntagged(limits: Limits, text: string) returns (chunks: seq<Tagged>)
    requires ValidLimits(limits)
    ensures TaggedFit(limits, chunks) && Says(Carry(limits), TextsOf(chunks), Ink(text))
    ensures chunks == Tag(ChunksOf(limits, text), None)
  {
    var pieces;
    ghost var news;
    pieces, news := ChunkText(limits, text);
    PiecesFit(limits, pieces);
    TextSays(limits, text, pieces, news);
    chunks := Tag(pieces, None);
    assert TextsOf(chunks) == pieces;
  }

  // ---------------------------------------------------------------- what a Python file's chunks leave out

  lemma InkFlatSnoc(segments: seq<Tagged>, last: Tagged)
    ensures Ink(Flat(TextsOf(segments + [last]))) == Ink(Flat(TextsOf(segments))) + Ink(last.text)
  {
    assert TextsOf(segments + [last]) == TextsOf(segments) + [last.text];
    FlatSnoc(TextsOf(segments), last.text);
    InkConcat(Flat(TextsOf(segments)), last.text);
  }

  /** Each segment is its stretch of the text, stripped. */
  ghost predicate Cut(text: string, segments: seq<Tagged>, spans: seq<Span>)
  {
    |segments| == |spans| && forall i | 0 <= i < |segments| :: segments[i].text == Strip(Stretch(text, spans[i]))
  }

  lemma CutConcat(text: string, a: seq<Tagged>, x: seq<Span>, b: seq<Tagged>, y: seq<Span>)
    requires Cut(text, a, x) && Cut(text, b, y)
    ensures Cut(text, a + b, x + y)
  {
    forall i | 0 <= i < |a| + |b| ensures (a + b)[i].text == Strip(Stretch(text, (x + y)[i])) {
      if i < |a| {
        assert (a + b)[i] == a[i] && (x + y)[i] == x[i];
      } else {
        assert (a + b)[i] == b[i - |a|] && (x + y)[i] == y[i - |a|];
      }
    }
  }

  lemma EitherCut(text: string, emitted: bool, segment: Tagged, span: Span, segments: seq<Tagged>, spans: seq<Span>)
    requires segments == (if emitted then [segment] else []) && spans == (if emitted then [span] else [])
    requires emitted ==> segment.text == Strip(Stretch(text, span))
    ensures Cut(text, segments, spans)
  {
  }

  lemma GapCut(text: string, init: seq<Statement>, node: Statement)
    ensures Cut(text, GapSegment(Lines(Splitlines, text), init, node), GapBefore(text, init, node))
  {
    var lines, a, b := Lines(Splitlines, text), PrevEnd(init), node.first - 1;
    if b > a {
      SliceIs(text, a, b);
    }
    EitherCut(text, b > a, GapText(lines, a, b), Gap(text, a, b),
              GapSegment(lines, init, node), GapBefore(text, init, node));
  }

  lemma OwnCut(text: string, node: Statement)
    requires Placed(text, node)
    ensures Cut(text, OwnSegment(Lines(Splitlines, text), Lines(Parser, text), node), Own(text, node))
  {
    var lines, rows := Lines(Splitlines, text), Lines(Parser, text);
    SegmentIs(text, node);
    EitherCut(text, !node.isImport, OwnText(lines, rows, node), Span(From(text, node), To(text, node)),
              OwnSegment(lines, rows, node), Own(text, node));
  }

  lemma {:induction false} SegmentsCut(text: string, statements: seq<Statement>)
    requires Parsed(text, statements)
    ensures Cut(text, Segments(Lines(Splitlines, text), Lines(Parser, text), statements), Spans(text, statements))
  {
    if statements != [] {
      var init, node := statements[..|statements| - 1], statements[|statements| - 1];
      var lines, rows := Lines(Splitlines, text), Lines(Parser, text);
      ParsedInit(text, statements);
      SegmentsCut(text, init);
      GapCut(text, init, node);
      OwnCut(text, node);
      CutConcat(text, Segments(lines, rows, init), Spans(text, init),
                GapSegment(lines, init, node), GapBefore(text, init, node));
      CutConcat(text, Segments(lines, rows, init) + GapSegment(lines, init, node),
                Spans(text, init) + GapBefore(text, init, node), OwnSegment(lines, rows, node), Own(text, node));
    }
  }

  /** The segments of a file are the stretches that the theorems about its characters speak of. */
  lemma AllSegmentsCut(text: string, statements: seq<Statement>)
    requires Parsed(text, statements)
    ensures Cut(text, AllSegments(text, statements), AllSpans(text, statements))
  {
    var lines := Lines(Splitlines, text);
    SegmentsCut(text, statements);
    if PrevEnd(statements) < |lines| {
      SliceIs(text, PrevEnd(statements), |lines|);
    }
    EitherCut(text, PrevEnd(statements) < |lines|, GapText(lines, PrevEnd(statements), |lines|),
              Gap(text, PrevEnd(statements), |lines|), LastSegment(lines, statements), GapAfter(text, statements));
    CutConcat(text, Segments(lines, Lines(Parser, text), statements), Spans(text, statements),
              LastSegment(lines, statements), GapAfter(text, statements));
  }

  function NameOf(owner: Option<Statement>): Option<string>
  {
    if owner.Some? then owner.value.defName else None
  }

  /** Each segment carries the name of the statement it is, and a gap none. */
  predicate Tied(segments: seq<Tagged>, owners: seq<Option<Statement>>)
  {
    |segments| == |owners| && forall i | 0 <= i < |segments| :: segments[i].defName == NameOf(owners[i])
  }

  lemma TiedConcat(a: seq<Tagged>, x: seq<Option<Statement>>, b: seq<Tagged>, y: seq<Option<Statement>>)
    requires Tied(a, x) && Tied(b, y)
    ensures Tied(a + b, x + y)
  {
    forall i | 0 <= i < |a| + |b| ensures (a + b)[i].defName == NameOf((x + y)[i]) {
      if i < |a| {
        assert (a + b)[i] == a[i] && (x + y)[i] == x[i];
      } else {
        assert (a + b)[i] == b[i - |a|] && (x + y)[i] == y[i - |a|];
      }
    }
  }

  lemma {:induction false} SegmentsTied(lines: seq<string>, rows: seq<string>, statements: seq<Statement>)
    ensures Tied(Segments(lines, rows, statements), Owners(statements))
  {
    if statements != [] {
      var init, node := statements[..|statements| - 1], statements[|statements| - 1];
      var gap := NoOwner(node.first > PrevEnd(init) + 1);
      SegmentsTied(lines, rows, init);
      assert Tied(GapSegment(lines, init, node), gap);
      assert Tied(OwnSegment(lines, rows, node), Itself(node));
      TiedConcat(Segments(lines, rows, init), Owners(init), GapSegment(lines, init, node), gap);
      TiedConcat(Segments(lines, rows, init) + GapSegment(lines, init, node), Owners(init) + gap,
                 OwnSegment(lines, rows, node), Itself(node));
    }
  }

  /** The segments' names are those of the statements whose columns they hold. */
  lemma AllSegmentsTied(text: string, statements: seq<Statement>)
    ensures Tied(AllSegments(text, statements), AllOwners(text, statements))
  {
    var lines := Lines(Splitlines, text);
    SegmentsTied(lines, Lines(Parser, text), statements);
    TiedConcat(Segments(lines, Lines(Parser, text), statements), Owners(statements),
               LastSegment(lines, statements), NoOwner(PrevEnd(statements) < |lines|));
  }

  lemma CutSaysMore(text: string, segments: seq<Tagged>, spans: seq<Span>, segment: Tagged, span: Span)
    requires Ink(Flat(TextsOf(segments))) == Ink(Flat(Stretches(text, spans)))
    requires segment.text == Strip(Stretch(text, span))
    ensures Ink(Flat(TextsOf(segments + [segment]))) == Ink(Flat(Stretches(text, spans + [span])))
  {
    InkFlatSnoc(segments, segment);
    InkStrip(Stretch(text, span));
    assert Stretches(text, spans + [span]) == Stretches(text, spans) + [Stretch(text, span)];
    FlatSnoc(Stretches(text, spans), Stretch(text, span));
    InkConcat(Flat(Stretches(text, spans)), Stretch(text, span));
  }

  lemma CutSaysNothing(text: string)
    ensures Ink(Flat(TextsOf([]))) == Ink(Flat(Stretches(text, []))) == ""
  {
    assert TextsOf([]) == Stretches(text, []) == [];
  }

  lemma CutInit(text: string, segments: seq<Tagged>, spans: seq<Span>, n: nat)
    requires Cut(text, segments, spans) && n <= |spans|
    ensures Cut(text, segments[..n], spans[..n])
  {
    forall i | 0 <= i < n ensures segments[..n][i].text == Strip(Stretch(text, spans[..n][i])) {
      assert segments[..n][i] == segments[i] && spans[..n][i] == spans[i];
    }
  }

  lemma InitAndLast<T>(items: seq<T>)
    requires items != []
    ensures items == items[..|items| - 1] + [items[|items| - 1]]
  {
  }

  lemma {:induction false} CutSays(text: string, segments: seq<Tagged>, spans: seq<Span>)
    requires Cut(text, segments, spans)
    ensures Ink(Flat(TextsOf(segments))) == Ink(Flat(Stretches(text, spans)))
    decreases |spans|
  {
    if spans == [] {
      CutSaysNothing(text);
      assert segments == [];
    } else {
      var n := |spans| - 1;
      InitAndLast(segments);
      InitAndLast(spans);
      CutInit(text, segments, spans, n);
      CutSays(text, segments[..n], spans[..n]);
      CutSaysMore(text, segments[..n], spans[..n], segments[n], spans[n]);
    }
  }

  /**
   * Where the line tables agree the segments say all of the text but what shares a line with a
   * statement and is outside the columns of every statement that is kept.
   */
  lemma SegmentsSaySpoken(text: string, statements: seq<Statement>)
    requires Parsed(text, statements) && TablesAgree(text, statements)
    ensures Ink(Flat(TextsOf(AllSegments(text, statements)))) == Ink(Pick(text, Spoken(text, statements), |text|))
  {
    AllSegmentsCut(text, statements);
    CutSays(text, AllSegments(text, statements), AllSpans(text, statements));
    StretchesAreSpoken(text, statements);
  }

  /** With nothing beside a statement on its lines, that is all of the text but the imports. */
  lemma OnlyImportsLeftOut(text: string, statements: seq<Statement>)
    requires Parsed(text, statements) && TablesAgree(text, statements) && NothingBeside(text, statements)
    ensures Ink(Flat(TextsOf(AllSegments(text, statements)))) == Ink(Pick(text, NotImported(text, statements), |text|))
  {
    SegmentsSaySpoken(text, statements);
    NothingLostIff(text, statements);
    SpokenIsNotImported(text, statements);
  }

  /** What a Python file's chunks say, in terms of its text alone. */
  ghost function Sayable(text: string, statements: seq<Statement>): string
  {
    var spoken := Pick(text, Spoken(text, statements), |text|);
    if Ink(spoken) != "" then spoken else text
  }

  lemma SpeaksSnoc(init: seq<Tagged>, last: Tagged)
    ensures Speaks(init + [last]) <==> Speaks(init) || last.text != ""
  {
    var all := init + [last];
    assert all[|init|] == last && forall i | 0 <= i < |init| :: all[i] == init[i];
    if Speaks(init) {
      var i :| 0 <= i < |init| && init[i].text != "";
      assert all[i].text != "";
    }
  }

  lemma {:induction false} SpeaksIff(segments: seq<Tagged>)
    requires AllStripped(segments)
    ensures Speaks(segments) <==> Ink(Flat(TextsOf(segments))) != ""
  {
    if segments == [] {
      assert TextsOf(segments) == [];
    } else {
      var init, last := segments[..|segments| - 1], segments[|segments| - 1];
      assert segments == init + [last] && Strip(last.text) == last.text;
      SpeaksIff(init);
      SpeaksSnoc(init, last);
      InkFlatSnoc(init, last);
      NoInkIff(last.text);
    }
  }

  lemma PythonTextIsSayable(text: string, statements: seq<Statement>)
    requires Parsed(text, statements) && TablesAgree(text, statements)
    ensures Ink(PythonText(text, Some(statements))) == Ink(Sayable(text, statements))
  {
    AllSegmentsStripped(text, statements);
    SpeaksIff(AllSegments(text, statements));
    SegmentsSaySpoken(text, statements);
  }

  // ---------------------------------------------------------------- dispatch

  datatype FileType = Python(tree: Option<seq<Statement>>) | MarkdownText | Other

  /** What the chunks of a document have to say. */
  function Wording(fileType: FileType, text: string): string
  {
    if fileType.Python? then PythonText(text, fileType.tree) else text
  }

  method ChunkDocument(limits: Limits, fileType: FileType, text: string) returns (chunks: seq<Tagged>)
    requires ValidLimits(limits)
    ensures TaggedFit(limits, chunks)
    ensures Says(Carry(limits), TextsOf(chunks), Ink(Wording(fileType, text)))
    ensures if fileType.Python? && fileType.tree.Some? && Speaks(AllSegments(text, fileType.tree.value))
            then FromSegments(limits, AllSegments(text, fileType.tree.value), chunks)
            else forall i | 0 <= i < |chunks| :: chunks[i].defName == None
    ensures fileType.MarkdownText? ==> TextsOf(chunks) == MarkdownChunks(limits, text)
    ensures fileType.MarkdownText? ==> chunks == Tag(MarkdownChunks(limits, text), None)
    ensures fileType.Other? ==> chunks == Tag(ChunksOf(limits, text), None)
  {
    match fileType
    case Python(tree) =>
      chunks := ChunkPython(limits, text, tree);
    case MarkdownText =>
      var pieces := ChunkMarkdown(limits, text);
      chunks := Tag(pieces, None);
      assert TextsOf(chunks) == pieces;
    case Other =>
      chunks := ChunkUntagged(limits, text);
  }

  /** Neither empty nor with whitespace at an end, and within the bound. */
  predicate Embeddable(limits: Limits, text: string)
  {
    0 < |text| <= Bound(limits) && !IsSpace(text[0]) && !IsSpace(text[|text| - 1])
  }

  predicate AllEmbeddable(limits: Limits, chunks: seq<Tagged>)
  {
    forall i | 0 <= i < |chunks| :: Embeddable(limits, chunks[i].text)
  }

  function StripOne(c: Tagged): seq<Tagged>
  {
    if Strip(c.text) == "" then [] else [Tagged(Strip(c.text), c.defName)]
  }

  /** The chunks stripped, in order, without those of which nothing is left. */
  function StripEach(chunks: seq<Tagged>): seq<Tagged>
  {
    if chunks == [] then [] else StripEach(chunks[..|chunks| - 1]) + StripOne(chunks[|chunks| - 1])
  }

  lemma {:induction false} StripEachConcat(a: seq<Tagged>, b: seq<Tagged>)
    ensures StripEach(a + b) == StripEach(a) + StripEach(b)
  {
    if b == [] {
      assert a + b == a;
    } else {
      assert (a + b)[..|a + b| - 1] == a + b[..|b| - 1];
      StripEachConcat(a, b[..|b| - 1]);
    }
  }

  function EachStripped(parts: seq<seq<Tagged>>): (r: seq<seq<Tagged>>)
    ensures |r| == |parts| && forall i | 0 <= i < |r| :: r[i] == StripEach(parts[i])
  {
    seq(|parts|, i requires 0 <= i < |parts| => StripEach(parts[i]))
  }

  lemma {:induction false} StripEachFlat(parts: seq<seq<Tagged>>)
    ensures StripEach(Flat(parts)) == Flat(EachStripped(parts))
  {
    if parts == [] {
      assert EachStripped(parts) == [];
    } else {
      var n := |parts| - 1;
      StripEachFlat(parts[..n]);
      StripEachConcat(Flat(parts[..n]), parts[n]);
      assert EachStripped(parts)[..n] == EachStripped(parts[..n]);
    }
  }

  lemma {:induction false} StripEachTags(chunks: seq<Tagged>, defName: Option<string>)
    requires forall i | 0 <= i < |chunks| :: chunks[i].defName == defName
    ensures forall i | 0 <= i < |StripEach(chunks)| :: StripEach(chunks)[i].defName == defName
  {
    if chunks != [] { StripEachTags(chunks[..|chunks| - 1], defName); }
  }

  lemma {:induction false} StripEachFits(limits: Limits, chunks: seq<Tagged>)
    requires TaggedFit(limits, chunks)
    ensures AllEmbeddable(limits, StripEach(chunks))
  {
    if chunks != [] {
      var n := |chunks| - 1;
      StripEachFits(limits, chunks[..n]);
      assert Fits(limits, chunks[n].text);
    }
  }

  lemma {:induction false} StripEachWithin(chunks: seq<Tagged>, most: nat)
    requires StrippedWithin(TextsOf(chunks), most)
    ensures AllAtMost(TextsOf(StripEach(chunks)), most)
  {
    if chunks != [] {
      var n := |chunks| - 1;
      assert TextsOf(chunks)[n] == chunks[n].text;
      forall c | c in TextsOf(chunks[..n]) ensures |Strip(c)| <= most {
        var i :| 0 <= i < n && TextsOf(chunks[..n])[i] == c;
        assert TextsOf(chunks)[i] == c;
      }
      StripEachWithin(chunks[..n], most);
      TextsConcat(StripEach(chunks[..n]), StripOne(chunks[n]));
    }
  }

  lemma StripSays(carry: nat, chunks: seq<string>, ink: string, c: Tagged, own: string)
    requires Says(carry, chunks, ink) && Renewed(c.text, own, carry)
    ensures Says(carry, chunks + TextsOf(StripOne(c)), ink + Ink(own))
  {
    var own' := StripRenewed(c.text, own, carry);
    if Strip(c.text) == "" {
      assert own' == "" && Ink(own') == "";
      assert TextsOf(StripOne(c)) == [] && chunks + [] == chunks;
      Regroup(ink, "", "");
    } else {
      FlatOne(own');
      assert Renews([Strip(c.text)], [own'], carry);
      assert TextsOf(StripOne(c)) == [Strip(c.text)];
      SaysConcat(carry, chunks, ink, [Strip(c.text)], Ink(own));
    }
  }

  lemma {:induction false} StripEachRenews(carry: nat, chunks: seq<Tagged>, news: seq<string>)
    requires Renews(TextsOf(chunks), news, carry)
    ensures Says(carry, TextsOf(StripEach(chunks)), Ink(Flat(news)))
  {
    if chunks == [] {
      SaysNothing(carry);
      assert TextsOf(StripEach(chunks)) == [];
    } else {
      var n := |chunks| - 1;
      assert forall k | 0 <= k < n :: TextsOf(chunks[..n])[k] == TextsOf(chunks)[k];
      StripEachRenews(carry, chunks[..n], news[..n]);
      assert Renewed(TextsOf(chunks)[n], news[n], carry);
      StripSays(carry, TextsOf(StripEach(chunks[..n])), Ink(Flat(news[..n])), chunks[n], news[n]);
      TextsConcat(StripEach(chunks[..n]), StripOne(chunks[n]));
      InkConcat(Flat(news[..n]), news[n]);
    }
  }

  /** Stripping leaves what the chunks say. */
  lemma StripEachSays(carry: nat, chunks: seq<Tagged>, ink: string)
    requires Says(carry, TextsOf(chunks), ink)
    ensures Says(carry, TextsOf(StripEach(chunks)), ink)
  {
    var news :| Renews(TextsOf(chunks), news, carry) && Ink(Flat(news)) == ink;
    StripEachRenews(carry, chunks, news);
  }

  /** The chunks of one stretch of a Python file: all with its name, saying what it says; one if it fits. */
  ghost predicate PassageOf(limits: Limits, stretch: string, defName: Option<string>, chunks: seq<Tagged>)
  {
    && (forall i | 0 <= i < |chunks| :: chunks[i].defName == defName)
    && Says(Carry(limits), TextsOf(chunks), Ink(stretch))
    && (|Strip(stretch)| <= limits.maxChars ==>
          chunks == if Strip(stretch) == "" then [] else [Tagged(Strip(stretch), defName)])
  }

  lemma PassageStripped(limits: Limits, segment: Tagged, stretch: string, pieces: seq<Tagged>)
    requires PiecesOf(limits, segment, pieces) && segment.text == Strip(stretch)
    ensures PassageOf(limits, stretch, segment.defName, StripEach(pieces))
  {
    StripEachTags(pieces, segment.defName);
    InkStrip(stretch);
    StripEachSays(Carry(limits), pieces, Ink(stretch));
    if |segment.text| <= limits.maxChars {
      StripTwice(stretch);
      assert pieces != [] ==> pieces[..0] == [] && StripEach(pieces) == [] + StripOne(segment);
    }
  }

  /** The chunks are, stretch by stretch, those of the statements' own columns and of the lines between them. */
  ghost predicate ByPassages(limits: Limits, text: string, spans: seq<Span>, owners: seq<Option<Statement>>,
                             parts: seq<seq<Tagged>>)
  {
    && |parts| == |owners| == |spans|
    && forall i | 0 <= i < |parts| :: PassageOf(limits, Stretch(text, spans[i]), NameOf(owners[i]), parts[i])
  }

  /**
   * The chunks come stretch by stretch: each statement that is no import has its own, in order and
   * under its own name, and the whole lines between statements have theirs without a name.
   */
  ghost predicate Named(limits: Limits, text: string, statements: seq<Statement>, chunks: seq<Tagged>)
  {
    exists spans, owners, parts: seq<seq<Tagged>> ::
      && AllOwned(text, statements, spans, owners) && Owning(owners) == Kept(statements)
      && ByPassages(limits, text, spans, owners, parts) && chunks == Flat(parts)
  }

  lemma SegmentsNamed(limits: Limits, text: string, statements: seq<Statement>, raw: seq<Tagged>)
    requires Parsed(text, statements) && FromSegments(limits, AllSegments(text, statements), raw)
    ensures Named(limits, text, statements, StripEach(raw))
  {
    var segments := AllSegments(text, statements);
    var parts: seq<seq<Tagged>> :| PartsOf(limits, segments, parts) && raw == Flat(parts);
    var spans, owners := AllSpans(text, statements), AllOwners(text, statements);
    AllSegmentsCut(text, statements);
    AllSegmentsTied(text, statements);
    OwnersMeaning(text, statements);
    StripEachFlat(parts);
    forall i | 0 <= i < |parts|
      ensures PassageOf(limits, Stretch(text, spans[i]), NameOf(owners[i]), EachStripped(parts)[i])
    {
      assert PiecesOf(limits, segments[i], parts[i]);
      PassageStripped(limits, segments[i], Stretch(text, spans[i]), parts[i]);
    }
    assert ByPassages(limits, text, spans, owners, EachStripped(parts));
  }

  /** A Python file that parses, and whose lines the chunker counts as the parser does. */
  ghost predicate Aligned(fileType: FileType, text: string)
  {
    && fileType.Python? && fileType.tree.Some?
    && Parsed(text, fileType.tree.value) && TablesAgree(text, fileType.tree.value)
  }

  /** A Python file that parses and has something besides imports and blank lines. */
  ghost predicate Speaking(fileType: FileType, text: string)
  {
    && fileType.Python? && fileType.tree.Some? && Parsed(text, fileType.tree.value)
    && exists span | span in AllSpans(text, fileType.tree.value) :: Strip(Stretch(text, span)) != ""
  }

  lemma CutSpeaks(text: string, segments: seq<Tagged>, spans: seq<Span>)
    requires Cut(text, segments, spans)
    ensures Speaks(segments) <==> exists span | span in spans :: Strip(Stretch(text, span)) != ""
  {
    if i :| 0 <= i < |segments| && segments[i].text != "" {
      assert spans[i] in spans;
    }
    if span :| span in spans && Strip(Stretch(text, span)) != "" {
      var i :| 0 <= i < |spans| && spans[i] == span;
      assert segments[i].text != "";
    }
  }

  lemma SpeakingIff(text: string, statements: seq<Statement>)
    requires Parsed(text, statements)
    ensures Speaks(AllSegments(text, statements)) <==>
              exists span | span in AllSpans(text, statements) :: Strip(Stretch(text, span)) != ""
  {
    AllSegmentsCut(text, statements);
    CutSpeaks(text, AllSegments(text, statements), AllSpans(text, statements));
  }

  /**
   * What is embedded, for every file type and text: no chunk is empty or starts or ends with
   * whitespace, none is longer than the larger of the chunk maximum and a full-size part behind a
   * full overlap, and together they say all of the text; of a Python file that parses, all of its
   * segments, which are all but what stands on a statement's lines outside a kept statement.  The
   * chunks of such a file carry the names of the statements they are cut from, all others none.
   */
  method ChunkFile(limits: Limits, fileType: FileType, text: string) returns (chunks: seq<Tagged>)
    requires ValidLimits(limits)
    ensures AllEmbeddable(limits, chunks)
    ensures Says(Carry(limits), TextsOf(chunks), Ink(Wording(fileType, text)))
    ensures !fileType.Python? ==> Says(Carry(limits), TextsOf(chunks), Ink(text))
    ensures Aligned(fileType, text) ==> Says(Carry(limits), TextsOf(chunks), Ink(Sayable(text, fileType.tree.value)))
    ensures Speaking(fileType, text) ==> Named(limits, text, fileType.tree.value, chunks)
    ensures !fileType.Python? || fileType.tree.None? ==> forall i | 0 <= i < |chunks| :: chunks[i].defName == None
    ensures fileType.Python? && fileType.tree.Some? && Parsed(text, fileType.tree.value)
            && !Speaking(fileType, text) ==>
              forall i | 0 <= i < |chunks| :: chunks[i].defName == None
    ensures fileType.MarkdownText? && Ample(limits) ==> AllAtMost(TextsOf(chunks), limits.maxChars)
    ensures fileType.MarkdownText? ==>
              exists pieces :: DocumentMeant(limits, text, pieces) && chunks == StripEach(Tag(pieces, None))
    ensures fileType.Other? ==> chunks == StripEach(Tag(ChunksOf(limits, text), None))
  {
    DocumentIsMeant(limits, text);
    if Aligned(fileType, text) {
      PythonTextIsSayable(text, fileType.tree.value);
    }
    var raw := ChunkDocument(limits, fileType, text);
    chunks := StripAll(raw);
    StripEachFits(limits, raw);
    StripEachSays(Carry(limits), raw, Ink(Wording(fileType, text)));
    if fileType.Python? && fileType.tree.Some? && Parsed(text, fileType.tree.value) {
      SpeakingIff(text, fileType.tree.value);
    }
    if Speaking(fileType, text) {
      SegmentsNamed(limits, text, fileType.tree.value, raw);
    } else if forall i | 0 <= i < |raw| :: raw[i].defName == None {
      StripEachTags(raw, None);
    }
    if fileType.MarkdownText? && Ample(limits) {
      MaximumKeptIff(limits);
      StripEachWithin(raw, limits.maxChars);
    }
  }

  method StripAll(raw: seq<Tagged>) returns (chunks: seq<Tagged>)
    ensures chunks == StripEach(raw)
  {
    chunks := [];
    for i := 0 to |raw|
      invariant chunks == StripEach(raw[..i])
    {
      assert raw[..i + 1][..i] == raw[..i];
      if Strip(raw[i].text) != "" {
        chunks := chunks + [Tagged(Strip(raw[i].text), raw[i].defName)];
      }
    }
    assert raw[..|raw|] == raw;
  }
}
