/** The detailed text of the about page: the backend sends one string in which a blank
    line separates paragraphs; a paragraph of several lines with a '-' bullet among them
    is shown as a list under an optional title, any other paragraph as it is. */
module AboutContent {
  import opened JsStrings
  import opened Seqs

  /** One rendered block. A list keeps what `find` returned for its title (`None` when
      every line is a bullet); a title that is the empty string is not displayed. */
  datatype Block =
    | Paragraph(text: string)
    | ListBlock(title: Option<string>, items: seq<string>)

  const ParagraphBreak: string := "\n\n"
  const LineBreak: string := "\n"

  /** `line.trim().startsWith('-')`: the first character that is not whitespace is a
      dash (`BulletIsTrimmedDash`). */
  predicate Bullet(line: string) {
    var t := DropWhitespace(line);
    t != [] && t[0] == '-'
  }

  lemma BulletIsTrimmedDash(line: string)
    ensures Bullet(line) <==> StartsWith(Trim(line), "-")
  {
    var t := TrimStart(line);
    var r := TrimEnd(t);
    DropWhitespaceIsTrimStart(line);
    TrimEndHead(t);
    StartsWithChar(r, '-');
    assert Bullet(line) <==> t != [] && t[0] == '-';
    assert Trim(line) == r;
  }

  function IsBullet(): string -> bool {
    (line: string) => Bullet(line)
  }

  function IsNotBullet(): string -> bool {
    (line: string) => !Bullet(line)
  }

  function NonEmpty(): string -> bool {
    (s: string) => s != ""
  }

  /** `item.replace(/^-\s*\/, '')`: a dash in the first column and the whitespace after
      it are dropped; a line indented before its dash is left as it is. */
  function StripBullet(line: string): (r: string)
    ensures |r| <= |line| && r == line[|line| - |r|..]
    ensures line != [] && line[0] == '-' ==> r == [] || !IsWhitespace(r[0])
    ensures line == [] || line[0] != '-' ==> r == line
  {
    if line != [] && line[0] == '-' then TrimStart(line[1..]) else line
  }

  function Lines(paragraph: string): (r: seq<string>)
    ensures |r| >= 1
  {
    Split(paragraph, LineBreak)
  }

  /** `lines.length > 1 && lines.some(isBullet)`. */
  predicate IsList(lines: seq<string>) {
    |lines| > 1 && exists i :: 0 <= i < |lines| && Bullet(lines[i])
  }

  /** `lines.find(line => !isBullet(line))`: the first line that is not a bullet. */
  function Title(lines: seq<string>): (r: Option<string>)
    ensures r.None? <==> forall i :: 0 <= i < |lines| ==> Bullet(lines[i])
    ensures r.Some? ==> exists i :: 0 <= i < |lines| && r.value == lines[i] && !Bullet(lines[i])
                                    && forall j :: 0 <= j < i ==> Bullet(lines[j])
  {
    match FindIndex(lines, IsNotBullet())
    case None => None
    case Some(k) => Some(lines[k])
  }

  /** The bullets of the paragraph, in order. */
  function BulletsOf(lines: seq<string>): (r: seq<string>)
    ensures |r| <= |lines|
  {
    Filter(lines, IsBullet())
  }

  /** Some bullet line makes it into the bullets of the paragraph. */
  lemma SomeBullet(lines: seq<string>, i: int)
    requires 0 <= i < |lines| && Bullet(lines[i])
    ensures |BulletsOf(lines)| >= 1
  {
    assert IsBullet()(lines[i]);
    assert lines[i] in BulletsOf(lines);
  }

  /** Every one of the bullets is a bullet line of the paragraph. */
  lemma BulletIsLine(lines: seq<string>, k: int)
    requires 0 <= k < |BulletsOf(lines)|
    ensures exists i :: 0 <= i < |lines| && Bullet(lines[i]) && lines[i] == BulletsOf(lines)[k]
  {
    var b := BulletsOf(lines)[k];
    assert IsBullet()(b);
    assert b in lines;
  }

  /** The list items: the bullet lines, in order, each with its leading dash stripped. */
  function Items(lines: seq<string>): (r: seq<string>)
    ensures |r| <= |lines|
    ensures (exists i :: 0 <= i < |lines| && Bullet(lines[i])) ==> |r| >= 1
    ensures forall k :: 0 <= k < |r| ==>
              exists i :: 0 <= i < |lines| && Bullet(lines[i]) && r[k] == StripBullet(lines[i])
  {
    var bullets := BulletsOf(lines);
    var r := Map(bullets, StripBullet);
    assert (exists i :: 0 <= i < |lines| && Bullet(lines[i])) ==> |r| >= 1 by {
      if i :| 0 <= i < |lines| && Bullet(lines[i]) {
        SomeBullet(lines, i);
      }
    }
    assert forall k :: 0 <= k < |r| ==>
              exists i :: 0 <= i < |lines| && Bullet(lines[i]) && r[k] == StripBullet(lines[i]) by {
      forall k | 0 <= k < |r|
        ensures exists i :: 0 <= i < |lines| && Bullet(lines[i]) && r[k] == StripBullet(lines[i])
      {
        BulletIsLine(lines, k);
      }
    }
    r
  }

  /** The block for one paragraph: a list when it is one, the paragraph itself otherwise. */
  function RenderParagraph(paragraph: string): (r: Block)
    ensures r.ListBlock? <==> IsList(Lines(paragraph))
    ensures r.Paragraph? ==> r.text == paragraph
    ensures r.ListBlock? ==> r.title == Title(Lines(paragraph)) && 1 <= |r.items|
  {
    var lines := Lines(paragraph);
    if IsList(lines) then ListBlock(Title(lines), Items(lines)) else Paragraph(paragraph)
  }

  /** `renderDetailedContent(text)`: nothing for empty text; otherwise one block per
      non-empty blank-line-separated paragraph, in order. */
  function Blocks(text: string): (r: seq<Block>)
    ensures text == "" ==> r == []
    ensures |r| <= |Split(text, ParagraphBreak)|
    ensures forall k :: 0 <= k < |r| ==>
              exists p :: p in Split(text, ParagraphBreak) && p != "" && r[k] == RenderParagraph(p)
  {
    if text == "" then []
    else
      var paragraphs := Filter(Split(text, ParagraphBreak), NonEmpty());
      var r := Map(paragraphs, RenderParagraph);
      assert forall k :: 0 <= k < |r| ==> NonEmpty()(paragraphs[k]) && r[k] == RenderParagraph(paragraphs[k]);
      r
  }

  /** A line whose first character is a dash is a bullet. */
  lemma DashFirst(rest: string)
    ensures Bullet("-" + rest)
  {
    assert DropWhitespace("-" + rest) == "-" + rest;
  }

  /** A bullet in the first column, whatever whitespace follows it, gives back its text. */
  lemma StripBulletOfItem(gap: string, item: string)
    requires forall k :: 0 <= k < |gap| ==> IsWhitespace(gap[k])
    requires item == [] || !IsWhitespace(item[0])
    ensures Bullet("-" + gap + item) && StripBullet("-" + gap + item) == item
  {
    DashFirst(gap + item);
    assert "-" + gap + item == "-" + (gap + item);
    assert ("-" + (gap + item))[1..] == gap + item;
    TrimStartPadded(gap, item);
  }

  /** Whitespace ahead of a line is skipped on the way to its first other character. */
  lemma {:induction false} DropIndent(indent: string, s: string)
    requires forall k :: 0 <= k < |indent| ==> IsWhitespace(indent[k])
    ensures DropWhitespace(indent + s) == DropWhitespace(s)
    decreases |indent|
  {
    if indent != [] {
      assert (indent + s)[1..] == indent[1..] + s;
      DropIndent(indent[1..], s);
    } else {
      assert indent + s == s;
    }
  }

  /** A bullet indented by whitespace still makes a list item, but keeps its dash. */
  lemma IndentedBulletKeepsDash(indent: string, rest: string)
    requires |indent| > 0 && forall k :: 0 <= k < |indent| ==> IsWhitespace(indent[k])
    ensures Bullet(indent + "-" + rest)
    ensures StripBullet(indent + "-" + rest) == indent + "-" + rest
  {
    var line := indent + "-" + rest;
    assert line == indent + ("-" + rest);
    DashFirst(rest);
    DropIndent(indent, "-" + rest);
    assert line[0] == indent[0];
  }

  /** A single line is never a list, even when it starts with a bullet. */
  lemma SingleLineParagraph(paragraph: string)
    requires Excludes(paragraph, '\n')
    ensures RenderParagraph(paragraph) == Paragraph(paragraph)
  {
    ExcludesClear(paragraph, LineBreak);
    SplitWithoutSeparator(paragraph, LineBreak);
  }

  /** Paragraphs joined with blank lines render as their blocks, in order, with the
      empty ones dropped: extra blank lines before, between or after paragraphs give no
      block. Each paragraph must end where the blank line after it begins. */
  lemma ParagraphsRoundTrip(paragraphs: seq<string>)
    requires forall i :: 0 <= i < |paragraphs| ==> Clear(paragraphs[i], ParagraphBreak)
    ensures Blocks(Join(paragraphs, ParagraphBreak)) == Map(Filter(paragraphs, NonEmpty()), RenderParagraph)
    ensures (forall i :: 0 <= i < |paragraphs| ==> paragraphs[i] != "")
            ==> Blocks(Join(paragraphs, ParagraphBreak)) == Map(paragraphs, RenderParagraph)
  {
    if paragraphs != [] {
      var text := Join(paragraphs, ParagraphBreak);
      SplitJoin(paragraphs, ParagraphBreak);
      if text == "" {
        assert paragraphs == Split("", ParagraphBreak) == [""];
      }
      if forall i :: 0 <= i < |paragraphs| ==> paragraphs[i] != "" {
        FilterAll(paragraphs, NonEmpty());
      }
    }
  }

  /** Every text, the empty one included, gives the blocks of its non-empty pieces. */
  lemma BlocksOfPieces(text: string)
    ensures Blocks(text) == Map(Filter(Split(text, ParagraphBreak), NonEmpty()), RenderParagraph)
  {
    if text == "" {
      assert Split(text, ParagraphBreak) == [""];
    }
  }

  /** The non-empty pieces of a piece list headed by one piece. */
  lemma NonEmptyAfterPiece(paragraph: string, pieces: seq<string>)
    ensures Map(Filter([paragraph] + pieces, NonEmpty()), RenderParagraph)
            == (if paragraph == "" then [] else [RenderParagraph(paragraph)])
               + Map(Filter(pieces, NonEmpty()), RenderParagraph)
  {
    var head := Filter([paragraph], NonEmpty());
    var tail := Filter(pieces, NonEmpty());
    FilterConcat([paragraph], pieces, NonEmpty());
    MapConcat(head, tail, RenderParagraph);
    SingleRendered(paragraph);
  }

  lemma SingleRendered(paragraph: string)
    ensures Map(Filter([paragraph], NonEmpty()), RenderParagraph)
            == (if paragraph == "" then [] else [RenderParagraph(paragraph)])
  {
    assert [paragraph][1..] == [];
    if paragraph != "" {
      assert Filter([paragraph], NonEmpty()) == [paragraph];
    }
  }

  /** The text up to the first blank line is the first paragraph: it gives the first
      block unless it is empty, and the rest of the text gives the others. */
  lemma BlocksAfterParagraph(paragraph: string, rest: string)
    requires Clear(paragraph, ParagraphBreak)
    ensures Blocks(paragraph + ParagraphBreak + rest)
            == (if paragraph == "" then [] else [RenderParagraph(paragraph)]) + Blocks(rest)
  {
    SplitAfterPiece(paragraph, ParagraphBreak, rest);
    BlocksOfPieces(paragraph + ParagraphBreak + rest);
    BlocksOfPieces(rest);
    NonEmptyAfterPiece(paragraph, Split(rest, ParagraphBreak));
  }

  lemma {:induction false} ExcludesClearAll(parts: seq<string>, sep: string)
    requires |sep| > 0
    requires forall i :: 0 <= i < |parts| ==> Excludes(parts[i], sep[0])
    ensures forall i :: 0 <= i < |parts| ==> Clear(parts[i], sep)
  {
    forall i | 0 <= i < |parts| ensures Clear(parts[i], sep) {
      ExcludesClear(parts[i], sep);
    }
  }

  /** Lines without line breaks, joined with line breaks, split back into those lines. */
  lemma LinesOfJoin(lines: seq<string>)
    requires |lines| >= 1 && forall i :: 0 <= i < |lines| ==> Excludes(lines[i], '\n')
    ensures Lines(Join(lines, LineBreak)) == lines
  {
    ExcludesClearAll(lines, LineBreak);
    SplitJoin(lines, LineBreak);
  }

  /** Dashed items are bullets without line breaks, and stripping gives the items back. */
  lemma DashedItems(items: seq<string>)
    requires forall k :: 0 <= k < |items| ==>
               Excludes(items[k], '\n') && (items[k] == [] || !IsWhitespace(items[k][0]))
    ensures forall k :: 0 <= k < |items| ==>
              Bullet(Dashed(items[k])) && StripBullet(Dashed(items[k])) == items[k]
              && Excludes(Dashed(items[k]), '\n')
  {
    forall k | 0 <= k < |items|
      ensures Bullet(Dashed(items[k])) && StripBullet(Dashed(items[k])) == items[k]
              && Excludes(Dashed(items[k]), '\n')
    {
      StripBulletOfItem(" ", items[k]);
      assert Dashed(items[k]) == "-" + " " + items[k];
    }
  }

  /** The items of two runs of lines, one after the other, are the items of the first
      run followed by those of the second: every bullet line gives its item, in line order. */
  lemma ItemsConcat(a: seq<string>, b: seq<string>)
    ensures Items(a + b) == Items(a) + Items(b)
  {
    FilterConcat(a, b, IsBullet());
    MapConcat(BulletsOf(a), BulletsOf(b), StripBullet);
  }

  /** One line gives one item, its stripped text, when it is a bullet, and none otherwise. */
  lemma ItemsOfLine(line: string)
    ensures Items([line]) == (if Bullet(line) then [StripBullet(line)] else [])
  {
    assert [line][1..] == [];
  }

  /** A title line ahead of bullet lines is the list's title, and the bullets, stripped,
      are its items. */
  lemma TitledList(title: string, bullets: seq<string>)
    requires !Bullet(title) && forall k :: 0 <= k < |bullets| ==> Bullet(bullets[k])
    ensures Title([title] + bullets) == Some(title)
    ensures Items([title] + bullets) == Map(bullets, StripBullet)
  {
    var lines := [title] + bullets;
    assert !Bullet(lines[0]);
    FilterConcat([title], bullets, IsBullet());
    assert lines == [title] + bullets;
    FilterAll(bullets, IsBullet());
    assert BulletsOf(lines) == bullets;
  }

  /** The lines of a titled list: none holds a line break, they form a list, the title
      comes first and the stripped bullets are the items. */
  lemma TitledListBreaks(title: string, items: seq<string>)
    requires Excludes(title, '\n') && !Bullet(title)
    requires |items| >= 1
    requires forall k :: 0 <= k < |items| ==>
               Excludes(items[k], '\n') && (items[k] == [] || !IsWhitespace(items[k][0]))
    ensures forall i :: 0 <= i < |[title] + Map(items, Dashed)| ==> Excludes(([title] + Map(items, Dashed))[i], '\n')
  {
    var bullets := Map(items, Dashed);
    var lines := [title] + bullets;
    forall i | 0 <= i < |lines| ensures Excludes(lines[i], '\n') {
      if i > 0 {
        assert lines[i] == "- " + items[i - 1];
      }
    }
  }

  lemma TitledListShape(title: string, items: seq<string>)
    requires Excludes(title, '\n') && !Bullet(title)
    requires |items| >= 1
    requires forall k :: 0 <= k < |items| ==>
               Excludes(items[k], '\n') && (items[k] == [] || !IsWhitespace(items[k][0]))
    ensures IsList([title] + Map(items, Dashed))
    ensures Title([title] + Map(items, Dashed)) == Some(title)
    ensures Items([title] + Map(items, Dashed)) == items
  {
    var bullets := Map(items, Dashed);
    var lines := [title] + bullets;
    DashedItems(items);
    assert Bullet(lines[1]) by {
      assert lines[1] == Dashed(items[0]);
    }
    TitledList(title, bullets);
    assert Map(bullets, StripBullet) == items by {
      forall k | 0 <= k < |items| ensures Map(bullets, StripBullet)[k] == items[k] {
        assert bullets[k] == Dashed(items[k]);
      }
    }
  }

  /** A title line followed by "- item" lines renders as a list with that title and
      exactly those items, in order. */
  lemma ListRoundTrip(title: string, items: seq<string>)
    requires Excludes(title, '\n') && !Bullet(title)
    requires |items| >= 1
    requires forall k :: 0 <= k < |items| ==>
               Excludes(items[k], '\n') && (items[k] == [] || !IsWhitespace(items[k][0]))
    ensures RenderParagraph(Join([title] + Map(items, Dashed), LineBreak)) == ListBlock(Some(title), items)
  {
    TitledListBreaks(title, items);
    TitledListShape(title, items);
    RenderList(Join([title] + Map(items, Dashed), LineBreak), [title] + Map(items, Dashed));
  }

  lemma RenderList(paragraph: string, lines: seq<string>)
    requires |lines| >= 1 && forall i :: 0 <= i < |lines| ==> Excludes(lines[i], '\n')
    requires paragraph == Join(lines, LineBreak) && IsList(lines)
    ensures RenderParagraph(paragraph) == ListBlock(Title(lines), Items(lines))
  {
    LinesOfJoin(lines);
  }

  /** How the list lines of `ListRoundTrip` are written: "- " before the item. */
  function Dashed(item: string): (r: string)
    ensures |r| == |item| + 2 && r[0] == '-'
  {
    "- " + item
  }
}
