/** One turn of the chat modal
    (clients/search-component/src/TrieveModal/Chat/ChatMessage.tsx): the
    citation links under an assistant answer, the choice between the loading
    spinner and the Markdown body, the brand colours of the role tag, and the
    language handed to the syntax highlighter for a code block. */
module ChatMessage {
  import opened Wrappers
  import opened Seqs
  import opened Strings

  /** JavaScript truthiness of a possibly missing string: present and non-empty. */
  predicate Truthy(v: Option<string>) {
    v.Some? && |v.value| > 0
  }

  /** `a || b` on possibly missing strings. */
  function Or(a: Option<string>, b: Option<string>): (r: Option<string>)
    ensures Truthy(a) ==> r == a
    ensures !Truthy(a) ==> r == b
  {
    if Truthy(a) then a else b
  }

  // ---------------------------------------------------------------------------
  // Citation links

  datatype CitationMetadata = CitationMetadata(
    heading: Option<string>, title: Option<string>, pageTitle: Option<string>)

  /** A supporting chunk attached to an answer (`Chunk`). */
  datatype Citation = Citation(metadata: CitationMetadata, link: Option<string>)

  /** A rendered `<a>`: its text and its `href`. */
  datatype Link = Link(labelText: string, href: string)

  /** `heading || title || page_title`. */
  function Label(c: Citation): (r: Option<string>)
    ensures Truthy(r) <==>
      Truthy(c.metadata.heading) || Truthy(c.metadata.title) || Truthy(c.metadata.pageTitle)
    ensures Truthy(r) ==>
      r in [c.metadata.heading, c.metadata.title, c.metadata.pageTitle]
    ensures Truthy(c.metadata.heading) ==> r == c.metadata.heading
    ensures !Truthy(c.metadata.heading) && Truthy(c.metadata.title) ==> r == c.metadata.title
  {
    Or(Or(c.metadata.heading, c.metadata.title), c.metadata.pageTitle)
  }

  /** The first filter: a citation needs a label and a link. */
  predicate Keep(c: Citation) {
    Truthy(Label(c)) && Truthy(c.link)
  }

  /** The `[label, link]` pair of a kept citation. */
  function ToLink(c: Citation): Link
    requires Keep(c)
  {
    Link(Label(c).value, c.link.value)
  }

  /** The `map` over the kept citations. */
  function ToLinks(cs: seq<Citation>): (r: seq<Link>)
    requires forall k :: 0 <= k < |cs| ==> Keep(cs[k])
    ensures |r| == |cs|
    ensures forall k :: 0 <= k < |cs| ==> r[k] == ToLink(cs[k])
  {
    if |cs| == 0 then [] else [ToLink(cs[0])] + ToLinks(cs[1..])
  }

  /** The pairs produced by the first filter and the map. */
  function Entries(cs: seq<Citation>): (r: seq<Link>)
    ensures forall k :: 0 <= k < |r| ==> |r[k].labelText| > 0 && |r[k].href| > 0
  {
    ToLinks(Filter(cs, Keep))
  }

  /** `a.findIndex((t) => t[0] === wanted)`: the first position with that
      label, or -1. */
  function FindIndex(a: seq<Link>, wanted: string): (r: int)
    ensures -1 <= r < |a|
    ensures r == -1 <==> forall k :: 0 <= k < |a| ==> a[k].labelText != wanted
    ensures r >= 0 ==> a[r].labelText == wanted
    ensures r >= 0 ==> forall k :: 0 <= k < r ==> a[k].labelText != wanted
  {
    if |a| == 0 then -1
    else if a[0].labelText == wanted then 0
    else
      var rest := FindIndex(a[1..], wanted);
      if rest == -1 then -1 else rest + 1
  }

  /** The label of a pair, the key the second filter deduplicates on. */
  function LinkLabel(l: Link): string {
    l.labelText
  }

  /** The second filter applied to the first `n` pairs: a pair is kept when
      it is the first with its label and the label is non-empty. */
  function FirstOfEachLabel(a: seq<Link>, n: nat): (r: seq<Link>)
    requires n <= |a|
    ensures |r| <= n
    ensures forall k :: 0 <= k < |r| ==> |r[k].labelText| > 0
  {
    if n == 0 then []
    else
      var kept := FirstOfEachLabel(a, n - 1);
      var v := a[n - 1];
      if FindIndex(a, v.labelText) == n - 1 && |v.labelText| > 0 then kept + [v] else kept
  }

  /** `l` is the first pair with its label, and sits below position `n`. */
  predicate FirstOccurrenceBelow(a: seq<Link>, l: Link, n: nat) {
    0 <= FindIndex(a, l.labelText) < n && a[FindIndex(a, l.labelText)] == l
  }

  /** Every pair kept among the first `n` is the first occurrence of its
      label, at a position below `n`. */
  lemma {:induction false} KeptAreFirst(a: seq<Link>, n: nat)
    requires n <= |a|
    ensures forall k :: 0 <= k < |FirstOfEachLabel(a, n)| ==>
      FirstOccurrenceBelow(a, FirstOfEachLabel(a, n)[k], n)
    decreases n
  {
    if n > 0 {
      KeptAreFirst(a, n - 1);
      var kept := FirstOfEachLabel(a, n - 1);
      var v := a[n - 1];
      if FindIndex(a, v.labelText) == n - 1 && |v.labelText| > 0 {
        var r := kept + [v];
        assert FirstOfEachLabel(a, n) == r;
        forall k | 0 <= k < |r|
          ensures FirstOccurrenceBelow(a, r[k], n)
        {
          if k < |kept| {
            assert r[k] == kept[k];
            assert FirstOccurrenceBelow(a, kept[k], n - 1);
          }
        }
      } else {
        assert FirstOfEachLabel(a, n) == kept;
      }
    }
  }

  /** No two kept pairs share a label. */
  lemma {:induction false} KeptAreDistinct(a: seq<Link>, n: nat)
    requires n <= |a|
    ensures DistinctBy(FirstOfEachLabel(a, n), LinkLabel)
    decreases n
  {
    if n > 0 {
      KeptAreDistinct(a, n - 1);
      KeptAreFirst(a, n - 1);
      var kept := FirstOfEachLabel(a, n - 1);
      var v := a[n - 1];
      if FindIndex(a, v.labelText) == n - 1 && |v.labelText| > 0 {
        var r := kept + [v];
        assert FirstOfEachLabel(a, n) == r;
        forall i, j | 0 <= i < |kept| && 0 <= j < |[v]|
          ensures LinkLabel(kept[i]) != LinkLabel([v][j])
        {
          assert FirstOccurrenceBelow(a, kept[i], n - 1);
        }
        DistinctConcat(kept, [v], LinkLabel);
      } else {
        assert FirstOfEachLabel(a, n) == kept;
      }
    }
  }

  /** Position `m` holds the first pair with its label, and that label
      is non-empty. */
  predicate StartsLabel(a: seq<Link>, m: int) {
    0 <= m < |a| && |a[m].labelText| > 0 && FindIndex(a, a[m].labelText) == m
  }

  /** Every first occurrence of a non-empty label among the first `n`
      pairs is kept. */
  lemma {:induction false} FirstOccurrencesAreKept(a: seq<Link>, n: nat)
    requires n <= |a|
    ensures forall m :: 0 <= m < n && StartsLabel(a, m) ==> a[m] in FirstOfEachLabel(a, n)
    decreases n
  {
    if n > 0 {
      FirstOccurrencesAreKept(a, n - 1);
      var kept := FirstOfEachLabel(a, n - 1);
      var v := a[n - 1];
      if StartsLabel(a, n - 1) {
        assert FirstOfEachLabel(a, n) == kept + [v];
        forall m | 0 <= m < n && StartsLabel(a, m)
          ensures a[m] in kept + [v]
        {
          if m < n - 1 {
            assert a[m] in kept;
          }
        }
      } else {
        assert FirstOfEachLabel(a, n) == kept;
      }
    }
  }

  /** The links shown under an answer with citations `cs`. */
  function Links(cs: seq<Citation>): (r: seq<Link>)
    ensures DistinctBy(r, LinkLabel)
    ensures forall k :: 0 <= k < |r| ==> |r[k].labelText| > 0
  {
    var a := Entries(cs);
    KeptAreDistinct(a, |a|);
    FirstOfEachLabel(a, |a|)
  }

  /** The deduplicated pairs are first occurrences with pairwise distinct
      labels, and every non-empty label of the pairs is represented. */
  lemma DedupByLabel(a: seq<Link>)
    ensures forall k :: 0 <= k < |FirstOfEachLabel(a, |a|)| ==>
      FirstOccurrenceBelow(a, FirstOfEachLabel(a, |a|)[k], |a|)
    ensures DistinctBy(FirstOfEachLabel(a, |a|), LinkLabel)
    ensures forall m :: 0 <= m < |a| && |a[m].labelText| > 0 ==>
      exists k :: 0 <= k < |FirstOfEachLabel(a, |a|)| && FirstOfEachLabel(a, |a|)[k].labelText == a[m].labelText
  {
    var r := FirstOfEachLabel(a, |a|);
    KeptAreFirst(a, |a|);
    KeptAreDistinct(a, |a|);
    FirstOccurrencesAreKept(a, |a|);
    forall m | 0 <= m < |a| && |a[m].labelText| > 0
      ensures exists k :: 0 <= k < |r| && r[k].labelText == a[m].labelText
    {
      var f := FindIndex(a, a[m].labelText);
      assert a[f].labelText == a[m].labelText;
      assert StartsLabel(a, f);
      assert a[f] in r;
      var k :| 0 <= k < |r| && r[k] == a[f];
      assert 0 <= k < |FirstOfEachLabel(a, |a|)| && FirstOfEachLabel(a, |a|)[k].labelText == a[m].labelText;
    }
  }

  /** Every shown link is the first of the citation pairs carrying its
      label, no two shown links share a label, and every label of a
      kept citation is shown. */
  lemma LinksAreFirstOccurrences(cs: seq<Citation>)
    ensures forall k :: 0 <= k < |Links(cs)| ==>
      FirstOccurrenceBelow(Entries(cs), Links(cs)[k], |Entries(cs)|)
    ensures DistinctBy(Links(cs), LinkLabel)
    ensures forall m :: 0 <= m < |Entries(cs)| ==>
      exists k :: 0 <= k < |Links(cs)| && Links(cs)[k].labelText == Entries(cs)[m].labelText
  {
    DedupByLabel(Entries(cs));
  }

  /** The links keep the order of the citations they come from. */
  lemma LinksKeepOrder(cs: seq<Citation>)
    ensures IsSubseq(Filter(cs, Keep), cs)
    ensures IsSubseq(Links(cs), Entries(cs))
  {
    FilterIsSubseq(cs, Keep);
    var a := Entries(cs);
    FirstOfEachLabelIsSubseq(a, |a|);
    assert a[..|a|] == a;
  }

  /** The pairs kept among the first `n` form a subsequence of them. */
  lemma {:induction false} FirstOfEachLabelIsSubseq(a: seq<Link>, n: nat)
    requires n <= |a|
    ensures IsSubseq(FirstOfEachLabel(a, n), a[..n])
    decreases n
  {
    if n > 0 {
      FirstOfEachLabelIsSubseq(a, n - 1);
      var kept := FirstOfEachLabel(a, n - 1);
      assert a[..n] == a[..n - 1] + [a[n - 1]];
      if FindIndex(a, a[n - 1].labelText) == n - 1 && |a[n - 1].labelText| > 0 {
        SubseqAppend(kept, a[..n - 1], a[n - 1]);
      } else {
        SubseqExtend(kept, a[..n - 1], a[n - 1]);
      }
    }
  }

  /** Two citations with the same heading and different links: only the
      first becomes a link. */
  lemma SameLabelKeepsFirst()
    ensures var first := Citation(CitationMetadata(Some("Intro"), None, None), Some("https://a"));
            var second := Citation(CitationMetadata(Some("Intro"), None, None), Some("https://b"));
            Links([first, second]) == [Link("Intro", "https://a")]
  {
    var first := Citation(CitationMetadata(Some("Intro"), None, None), Some("https://a"));
    var second := Citation(CitationMetadata(Some("Intro"), None, None), Some("https://b"));
    assert Keep(first) && Keep(second);
    assert Filter([second], Keep) == [second];
    assert [first, second][1..] == [second];
    assert Filter([first, second], Keep) == [first, second];
    var a := Entries([first, second]);
    assert a == [Link("Intro", "https://a"), Link("Intro", "https://b")];
    assert FindIndex(a, "Intro") == 0;
    assert FirstOfEachLabel(a, 1) == [a[0]];
  }

  // ---------------------------------------------------------------------------
  // Message body

  /** The text that stands for an answer still being generated. */
  const LoadingText: string := "Loading..."

  /** A chat turn: `type` is `"user"`, `"system"` or anything else. */
  datatype Message = Message(kind: string, text: string, additional: Option<seq<Citation>>)

  /** The Markdown block of an assistant answer and its links block. */
  datatype MarkdownBlock = MarkdownBlock(text: string, links: Option<seq<Link>>)

  /** What `Message` renders inside its `<div>`. */
  datatype MessageView = MessageView(spinner: bool, markdown: Option<MarkdownBlock>)

  /** `Message`: the spinner for the loading text; the Markdown body, with
      its links block when `additional` is not null, for a `"system"`
      message with any other text. */
  function RenderMessage(m: Message): (v: MessageView)
    ensures v.spinner <==> m.text == LoadingText
    ensures v.markdown.Some? <==> m.kind == "system" && m.text != LoadingText
    ensures v.markdown.Some? ==> v.markdown.value.text == m.text
    ensures v.markdown.Some? ==> (v.markdown.value.links.Some? <==> m.additional.Some?)
    ensures v.markdown.Some? && m.additional.Some? ==>
      v.markdown.value.links.value == Links(m.additional.value)
  {
    var spinner := m.text == LoadingText;
    var markdown :=
      if m.kind == "system" && m.text != LoadingText then
        Some(MarkdownBlock(m.text, match m.additional
          case None => None
          case Some(cs) => Some(Links(cs))))
      else None;
    MessageView(spinner, markdown)
  }

  /** The spinner and the Markdown body never show together, and a message
      whose type is neither `"user"` nor `"system"` shows nothing but the
      spinner. */
  lemma SpinnerExcludesMarkdown(m: Message)
    ensures !(RenderMessage(m).spinner && RenderMessage(m).markdown.Some?)
    ensures m.kind != "system" ==> RenderMessage(m).markdown.None?
    ensures m.kind != "system" && m.text != LoadingText ==>
      RenderMessage(m) == MessageView(false, None)
  {
  }

  // ---------------------------------------------------------------------------
  // Role tag and avatar

  /** The branding properties read by `ChatMessage`. */
  datatype BrandProps = BrandProps(
    brandColor: Option<string>, brandLogoImgSrcUrl: Option<string>, brandName: Option<string>)

  const DefaultBrandColor: string := "#CB53EB"
  /** The two-hex-digit alpha that makes the tag background mostly transparent. */
  const TagAlpha: string := "18"

  datatype TagStyle = TagStyle(backgroundColor: string, color: string)

  datatype Avatar = AiIcon | Logo(src: string, alt: string)

  /** The rendering of one chat turn. */
  datatype ChatView =
    | UserTurn(tag: TagStyle, text: string)
    | AssistantTurn(avatar: Avatar, tag: TagStyle, body: MessageView)

  /** The tag colours: the background falls back on a falsy brand colour
      (`? :`), the text colour only on a missing one (`??`). */
  function Tag(props: BrandProps): (t: TagStyle)
    ensures Truthy(props.brandColor) ==>
      t.backgroundColor == props.brandColor.value + TagAlpha && t.color == props.brandColor.value
    ensures props.brandColor.None? ==>
      t == TagStyle(DefaultBrandColor + TagAlpha, DefaultBrandColor)
    ensures props.brandColor == Some("") ==>
      t == TagStyle(DefaultBrandColor + TagAlpha, "")
  {
    var background :=
      if Truthy(props.brandColor) then props.brandColor.value + TagAlpha
      else DefaultBrandColor + TagAlpha;
    TagStyle(background, props.brandColor.GetOr(DefaultBrandColor))
  }

  /** The background is the text colour with the alpha suffix exactly when
      the brand colour is not the empty string. */
  lemma TagBackgroundMatchesText(props: BrandProps)
    ensures Tag(props).backgroundColor == Tag(props).color + TagAlpha <==> props.brandColor != Some("")
  {
    if props.brandColor == Some("") {
      assert Tag(props).color + TagAlpha == TagAlpha;
      assert |Tag(props).backgroundColor| == |DefaultBrandColor + TagAlpha|;
    }
  }

  /** `ChatMessage`: a `"user"` message shows its text under the user tag;
      every other message shows the assistant avatar (the brand logo with
      `brandName || "Brand logo"` as alt text, or the AI icon) and `Message`. */
  function RenderChatMessage(m: Message, props: BrandProps): (v: ChatView)
    ensures m.kind == "user" <==> v.UserTurn?
    ensures v.UserTurn? ==> v.text == m.text
    ensures v.tag == Tag(props)
    ensures v.AssistantTurn? ==> v.body == RenderMessage(m)
    ensures v.AssistantTurn? && Truthy(props.brandLogoImgSrcUrl) ==>
      v.avatar.Logo? && v.avatar.src == props.brandLogoImgSrcUrl.value && |v.avatar.alt| > 0
    ensures v.AssistantTurn? && Truthy(props.brandLogoImgSrcUrl) ==>
      v.avatar.alt == (if Truthy(props.brandName) then props.brandName.value else "Brand logo")
    ensures v.AssistantTurn? && !Truthy(props.brandLogoImgSrcUrl) ==> v.avatar == AiIcon
  {
    if m.kind == "user" then UserTurn(Tag(props), m.text)
    else
      var avatar :=
        if Truthy(props.brandLogoImgSrcUrl) then
          Logo(props.brandLogoImgSrcUrl.value, Or(props.brandName, Some("Brand logo")).value)
        else AiIcon;
      AssistantTurn(avatar, Tag(props), RenderMessage(m))
  }

  /** A user turn shows its text as is, even the loading text: the spinner
      belongs to assistant turns only. */
  lemma UserLoadingTextIsPlain(props: BrandProps)
    ensures RenderChatMessage(Message("user", LoadingText, None), props) == UserTurn(Tag(props), LoadingText)
  {
  }

  // ---------------------------------------------------------------------------
  // Code blocks

  const LanguageMarker: string := "language"
  const DefaultLanguage: string := "bash"

  /** `className?.split("language")[1] || "bash"`, with `"bash"` for a
      missing or empty class name. */
  function CodeLanguage(className: Option<string>): (lang: string)
    ensures |lang| > 0
    ensures !Truthy(className) ==> lang == DefaultLanguage
  {
    if !Truthy(className) then DefaultLanguage
    else
      var parts := Split(className.value, LanguageMarker);
      if |parts| > 1 && |parts[1]| > 0 then parts[1] else DefaultLanguage
  }

  /** A highlighted code block: the language and the code. */
  datatype CodeBlock = CodeBlock(language: string, code: string)

  /** The `code` renderer: nothing for falsy children. */
  function RenderCode(className: Option<string>, children: Option<string>): (r: Option<CodeBlock>)
    ensures r.Some? <==> Truthy(children)
    ensures r.Some? ==> r.value.code == children.value && r.value.language == CodeLanguage(className)
  {
    if !Truthy(children) then None
    else Some(CodeBlock(CodeLanguage(className), children.value))
  }

  /** Without the marker the language is `"bash"`. */
  lemma CodeLanguageWithoutMarker(c: string)
    requires !Contains(c, LanguageMarker)
    ensures CodeLanguage(Some(c)) == DefaultLanguage
  {
    SplitWithoutSeparator(c, LanguageMarker);
  }

  /** The language is the text between the first marker and the next one,
      when that text is non-empty; otherwise `"bash"`. */
  lemma CodeLanguageUpToNextMarker(c: string, i: nat, j: nat)
    requires FoundAt(c, LanguageMarker, 0, i)
    requires FoundAt(c, LanguageMarker, i + |LanguageMarker|, j)
    ensures i + |LanguageMarker| <= j
    ensures CodeLanguage(Some(c)) ==
      if i + |LanguageMarker| < j then c[i + |LanguageMarker|..j] else DefaultLanguage
  {
    SplitSecondPieceToNext(c, LanguageMarker, i, j);
    assert OccursAt(c, LanguageMarker, i);
  }

  /** With a single marker the language is the rest of the class name, when
      non-empty; otherwise `"bash"`. */
  lemma CodeLanguageToEnd(c: string, i: nat)
    requires FoundAt(c, LanguageMarker, 0, i)
    requires IndexOf(c, LanguageMarker, i + |LanguageMarker|).None?
    ensures CodeLanguage(Some(c)) ==
      if i + |LanguageMarker| < |c| then c[i + |LanguageMarker|..] else DefaultLanguage
  {
    SplitSecondPieceToEnd(c, LanguageMarker, i);
    assert OccursAt(c, LanguageMarker, i);
  }

  /** The chosen language never contains the marker. */
  lemma CodeLanguageAvoidsMarker(className: Option<string>)
    ensures !Contains(CodeLanguage(className), LanguageMarker)
  {
    if Truthy(className) {
      var parts := Split(className.value, LanguageMarker);
      SplitPiecesAvoidSeparator(className.value, LanguageMarker);
      if !(|parts| > 1 && |parts[1]| > 0) {
        assert !OccursAt(DefaultLanguage, LanguageMarker, 0);
      }
    } else {
      assert !OccursAt(DefaultLanguage, LanguageMarker, 0);
    }
  }

  /** Markdown's `language-python` class keeps its dash: the highlighter is
      asked for `-python`. */
  lemma DashIsKept()
    ensures CodeLanguage(Some("language-python")) == "-python"
  {
    var c := "language-python";
    assert OccursAt(c, LanguageMarker, 0);
    assert FoundAt(c, LanguageMarker, 0, 0);
    assert IndexOf(c, LanguageMarker, 8).None?;
    CodeLanguageToEnd(c, 0);
  }
}
