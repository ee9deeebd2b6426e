/** The retrieval-augmented answering pipeline: manifest ingestion into the
    vector store, the embedding text of an item, the grounding prompt, and
    `ask`. The embedding model, the language model and the rendering of a tag
    list are functions given to the pipeline. */
module RagPipeline {
  import opened Typedefs
  import opened Store
  import Py

  /** The fields the loader reads from one object of the manifest array. */
  datatype ManifestRow = ManifestRow(
    imageId: string,
    image: string,
    caption: string,
    tags: seq<string>,
    location: string)

  /** A call into one of the two external models, in the order made. */
  datatype ModelCall = EmbedCall(text: string) | GenerateCall(prompt: string)

  /** The answer of `ask`: the generated text and the metadata it was grounded on. */
  datatype Answer = Answer(response: string, sources: seq<Metadata>)

  // ---------------------------------------------------------------------
  // Embedding text

  /** The lines of the embedding-text template (a triple-quoted string
      indented by eight spaces). */
  const CaptionLine := "\n        Caption: "
  const TagsLine := "\n        Tags: "
  const LocationLine := "\n        Location: "
  const TemplateEnd := "\n        "

  /** The text embedded for an item: caption, rendered tag list and location,
      in that order, in a fixed template. `showTags` stands for Python's
      `str` of a list. */
  function BuildText(meta: Metadata, showTags: seq<string> -> string): string
  {
    CaptionLine + meta.caption + TagsLine + showTags(meta.tags) + LocationLine + meta.location + TemplateEnd
  }

  /** Where each field sits in the embedding text. */
  lemma BuildTextLayout(meta: Metadata, showTags: seq<string> -> string)
    ensures var t := BuildText(meta, showTags);
            var c := |CaptionLine| + |meta.caption|;
            var g := c + |TagsLine| + |showTags(meta.tags)|;
            var l := g + |LocationLine| + |meta.location|;
            && |t| == l + |TemplateEnd|
            && t[..|CaptionLine|] == CaptionLine
            && t[|CaptionLine|..c] == meta.caption
            && t[c..c + |TagsLine|] == TagsLine
            && t[c + |TagsLine|..g] == showTags(meta.tags)
            && t[g..g + |LocationLine|] == LocationLine
            && t[g + |LocationLine|..l] == meta.location
            && t[l..] == TemplateEnd
  {
  }

  /** The embedding text depends on the caption, tags and location only:
      items that agree on those get the same text, whatever their id or path. */
  lemma BuildTextIgnoresIdentity(a: Metadata, b: Metadata, showTags: seq<string> -> string)
    requires a.caption == b.caption && a.tags == b.tags && a.location == b.location
    ensures BuildText(a, showTags) == BuildText(b, showTags)
  {
  }

  // ---------------------------------------------------------------------
  // Manifest ingestion

  function RowMetadata(row: ManifestRow): Metadata
  {
    Metadata(row.imageId, row.image, row.caption, row.tags, row.location)
  }

  /** The element the loader builds from one row. */
  function RowElement(row: ManifestRow, embed: string -> Vector, showTags: seq<string> -> string): Element
  {
    var meta := RowMetadata(row);
    Element(row.imageId, embed(BuildText(meta, showTags)), meta)
  }

  /** The elements a manifest contributes to the store: one per row, in row order. */
  function ManifestElements(rows: seq<ManifestRow>, embed: string -> Vector,
                            showTags: seq<string> -> string): (es: seq<Element>)
    ensures |es| == |rows|
    ensures forall i :: 0 <= i < |rows| ==> es[i] == RowElement(rows[i], embed, showTags)
  {
    seq(|rows|, i requires 0 <= i < |rows| => RowElement(rows[i], embed, showTags))
  }

  /** The element loaded from a row carries the row's id, and as metadata the
      row's id, image reference, caption, tags and location; its embedding is
      that of the embedding text of this metadata. */
  lemma RowElementFields(row: ManifestRow, embed: string -> Vector, showTags: seq<string> -> string)
    ensures var e := RowElement(row, embed, showTags);
            && e.id == row.imageId
            && e.metadata.imageId == row.imageId
            && e.metadata.imagePath == row.image
            && e.metadata.caption == row.caption
            && e.metadata.tags == row.tags
            && e.metadata.location == row.location
            && e.embedding == embed(BuildText(e.metadata, showTags))
  {
  }

  /** The embedding calls the loader makes: one per row, in row order. */
  function EmbedCalls(rows: seq<ManifestRow>, showTags: seq<string> -> string): (cs: seq<ModelCall>)
    ensures |cs| == |rows|
    ensures forall i :: 0 <= i < |rows| ==> cs[i] == EmbedCall(BuildText(RowMetadata(rows[i]), showTags))
  {
    seq(|rows|, i requires 0 <= i < |rows| => EmbedCall(BuildText(RowMetadata(rows[i]), showTags)))
  }

  /** After a manifest is loaded on top of `existing`, looking an id up finds
      the existing entry if there is one, and otherwise the element of the
      first row carrying that id; it finds nothing exactly when neither has it. */
  lemma LookupAfterLoad(existing: seq<Element>, rows: seq<ManifestRow>, embed: string -> Vector,
                        showTags: seq<string> -> string, id: string)
    ensures var r := FirstWithId(existing + ManifestElements(rows, embed, showTags), id);
            && (r.None? <==> FirstWithId(existing, id).None? && forall i :: 0 <= i < |rows| ==> rows[i].imageId != id)
            && (FirstWithId(existing, id).Some? ==> r == FirstWithId(existing, id))
            && (FirstWithId(existing, id).None? && r.Some? ==>
                  exists i :: 0 <= i < |rows| && rows[i].imageId == id
                              && (forall j :: 0 <= j < i ==> rows[j].imageId != id)
                              && r.value == RowElement(rows[i], embed, showTags))
  {
    var es := ManifestElements(rows, embed, showTags);
    forall i | 0 <= i < |rows| ensures es[i].id == rows[i].imageId {
      RowElementFields(rows[i], embed, showTags);
    }
    LookupAfterAppend(existing, es, rows, id);
  }

  /** `LookupAfterLoad` for any elements whose ids are those of the rows. */
  lemma LookupAfterAppend(existing: seq<Element>, es: seq<Element>, rows: seq<ManifestRow>, id: string)
    requires |es| == |rows|
    requires forall i :: 0 <= i < |rows| ==> es[i].id == rows[i].imageId
    ensures var r := FirstWithId(existing + es, id);
            && (r.None? <==> FirstWithId(existing, id).None? && forall i :: 0 <= i < |rows| ==> rows[i].imageId != id)
            && (FirstWithId(existing, id).Some? ==> r == FirstWithId(existing, id))
            && (FirstWithId(existing, id).None? && r.Some? ==>
                  exists i :: 0 <= i < |rows| && rows[i].imageId == id
                              && (forall j :: 0 <= j < i ==> rows[j].imageId != id)
                              && r.value == es[i])
  {
    FirstWithIdAppend(existing, es, id);
    var f := FirstWithId(es, id);
    if f.Some? {
      var i :| 0 <= i < |es| && es[i] == f.value && f.value.id == id
               && forall j :: 0 <= j < i ==> es[j].id != id;
      assert rows[i].imageId == id;
    }
  }

  /** Loading the same manifest twice keeps both copies, and a lookup never
      returns an element of the second copy. */
  lemma LoadTwiceDuplicates(existing: seq<Element>, rows: seq<ManifestRow>, embed: string -> Vector,
                            showTags: seq<string> -> string, id: string)
    ensures var es := ManifestElements(rows, embed, showTags);
            && |existing + es + es| == |existing| + 2 * |rows|
            && FirstWithId(existing + es + es, id) == FirstWithId(existing + es, id)
  {
    var es := ManifestElements(rows, embed, showTags);
    FirstWithIdAppend(existing + es, es, id);
    FirstWithIdAppend(existing, es, id);
  }

  // ---------------------------------------------------------------------
  // Grounding prompt

  /** The fixed text of the prompt before and after the quoted question, and
      its closing sentence. */
  const PreambleHead := "\n        You are an urban analysis assistant helping to answer questions based on images related to Sustainable Development Goals (SDGs), \n        such as urban infrastructure, safety, sanitation, and traffic.\n        The user asked: \""
  const PreambleTail := "\"\n        Below are the most relevant images retrieved, each with its caption, tags, and location. Use these to answer the question accurately, citing key visual indicators.\n        "
  const Closing := "Based on the above information, provide a concise and informative answer to the user's question."

  /** The fixed texts of the grounding prompt. */
  datatype PromptTemplate = PromptTemplate(head: string, tail: string, closing: string)

  const RagTemplate := PromptTemplate(PreambleHead, PreambleTail, Closing)

  function Preamble(t: PromptTemplate, q: string): string
  {
    t.head + q + t.tail
  }

  /** The heading line of the block numbered `n`. */
  function Header(n: nat): string
  {
    "Image " + Py.DecimalString(n) + ":\n"
  }

  /** Different block numbers give different heading lines, so the blocks of
      one prompt are told apart by their headings. */
  lemma HeadersDistinct(m: nat, n: nat)
    requires m != n
    ensures Header(m) != Header(n)
  {
    // the numeral sits between "Image " and ":\n", and numerals of different
    // numbers denote different values
    var hm, hn := Header(m), Header(n);
    assert hm[6..|hm| - 2] == Py.DecimalString(m);
    assert hn[6..|hn| - 2] == Py.DecimalString(n);
  }

  /** The block for the element numbered `n`: its heading, location, caption,
      then the tags joined by ", ". */
  function Block(n: nat, meta: Metadata): string
  {
    Header(n)
    + "Location: " + meta.location + "\n"
    + "Caption: " + meta.caption + "\n"
    + "Tags: " + Py.Join(meta.tags, ", ") + "\n\n"
  }

  /** The block texts of `es`, numbered from `first` on, in order. */
  function BlockTexts(es: seq<Element>, first: nat): (bs: seq<string>)
    ensures |bs| == |es|
    ensures forall i :: 0 <= i < |es| ==> bs[i] == Block(first + i, es[i].metadata)
  {
    seq(|es|, i requires 0 <= i < |es| => Block(first + i, es[i].metadata))
  }

  /** The blocks of `es`, numbered from `first` on, one after the other. */
  function Blocks(es: seq<Element>, first: nat): string
  {
    Py.Concat(BlockTexts(es, first))
  }

  /** The prompt `create_prompt` assembles. */
  function Prompt(t: PromptTemplate, q: string, es: seq<Element>): string
  {
    Preamble(t, q) + Blocks(es, 1) + t.closing
  }

  lemma BlockTextsConcat(a: seq<Element>, b: seq<Element>, first: nat)
    ensures BlockTexts(a + b, first) == BlockTexts(a, first) + BlockTexts(b, first + |a|)
  {
    var l, r := BlockTexts(a + b, first), BlockTexts(a, first) + BlockTexts(b, first + |a|);
    forall i | 0 <= i < |l|
      ensures l[i] == r[i]
    {
      if i < |a| {
        assert (a + b)[i] == a[i];
      } else {
        assert (a + b)[i] == b[i - |a|];
        assert first + i == first + |a| + (i - |a|);
      }
    }
  }

  /** Numbering carries on across a split: the blocks of `a + b` are those of
      `a` followed by those of `b` numbered from `first + |a|`. */
  lemma BlocksConcat(a: seq<Element>, b: seq<Element>, first: nat)
    ensures Blocks(a + b, first) == Blocks(a, first) + Blocks(b, first + |a|)
  {
    BlockTextsConcat(a, b, first);
    Py.ConcatAppend(BlockTexts(a, first), BlockTexts(b, first + |a|));
  }

  /** One loop step of the prompt assembly: appending the block numbered
      |es| + 1 extends the prompt text for `es` to that for `es + [e]`. */
  lemma BlocksSnoc(es: seq<Element>, e: Element)
    ensures Blocks(es + [e], 1) == Blocks(es, 1) + Block(|es| + 1, e.metadata)
  {
    BlocksConcat(es, [e], 1);
    var one := BlockTexts([e], 1 + |es|);
    assert one == [Block(|es| + 1, e.metadata)];
    assert Py.Concat(one) == Block(|es| + 1, e.metadata) + Py.Concat([]);
  }

  /** The prompt for `es` holds, after the preamble, the block of `es[i]`
      numbered `i + 1`, preceded by the blocks of the elements before it and
      followed by those after it; the closing sentence ends it. */
  lemma PromptBlockAt(t: PromptTemplate, q: string, es: seq<Element>, i: nat)
    requires i < |es|
    ensures Prompt(t, q, es) ==
            Preamble(t, q) + Blocks(es[..i], 1) + Block(i + 1, es[i].metadata) + Blocks(es[i + 1..], i + 2) + t.closing
  {
    BlocksAt(es, i);
    Regroup(Preamble(t, q), Blocks(es[..i], 1), Block(i + 1, es[i].metadata), Blocks(es[i + 1..], i + 2), t.closing);
  }

  /** The blocks of `es` split around the one of `es[i]`. */
  lemma BlocksAt(es: seq<Element>, i: nat)
    requires i < |es|
    ensures Blocks(es, 1) == Blocks(es[..i], 1) + Block(i + 1, es[i].metadata) + Blocks(es[i + 1..], i + 2)
  {
    var upTo := es[..i] + [es[i]];
    assert es == upTo + es[i + 1..];
    BlocksConcat(upTo, es[i + 1..], 1);
    BlocksSnoc(es[..i], es[i]);
  }

  /** One loop step of `create_prompt`: appending the block numbered `i + 1`
      to the text for the first `i` elements gives the text for `i + 1`. */
  lemma PromptStep(p: string, es: seq<Element>, i: nat)
    requires i < |es|
    ensures p + Blocks(es[..i], 1) + Block(i + 1, es[i].metadata) == p + Blocks(es[..i + 1], 1)
  {
    assert es[..i + 1] == es[..i] + [es[i]];
    BlocksSnoc(es[..i], es[i]);
    ConcatAssoc(p, Blocks(es[..i], 1), Block(i + 1, es[i].metadata));
  }

  lemma Regroup(p: string, a: string, b: string, c: string, z: string)
    ensures p + (a + b + c) + z == p + a + b + c + z
  {
  }

  lemma ConcatAssoc(a: string, b: string, c: string)
    ensures a + b + c == a + (b + c)
  {
  }

  lemma ConcatEmpty(a: string)
    ensures a + Blocks([], 1) == a
  {
  }

  /** With no elements the prompt is the preamble followed directly by the
      closing sentence. */
  lemma PromptEmpty(t: PromptTemplate, q: string)
    ensures Prompt(t, q, []) == Preamble(t, q) + t.closing
  {
  }

  /** The prompt starts with the fixed opening, then the question verbatim
      and the rest of the preamble, and ends with the closing sentence. */
  lemma PromptFrame(t: PromptTemplate, q: string, es: seq<Element>)
    ensures var p := Prompt(t, q, es);
            && |p| >= |t.head| + |q| + |t.tail| + |t.closing|
            && p[..|t.head|] == t.head
            && p[|t.head|..|t.head| + |q|] == q
            && p[|t.head| + |q|..|t.head| + |q| + |t.tail|] == t.tail
            && p[|p| - |t.closing|..] == t.closing
  {
    FiveParts(t.head, q, t.tail, Blocks(es, 1), t.closing);
  }

  lemma FiveParts(a: string, b: string, c: string, d: string, e: string)
    ensures var p := a + b + c + d + e;
            && |p| == |a| + |b| + |c| + |d| + |e|
            && p[..|a|] == a
            && p[|a|..|a| + |b|] == b
            && p[|a| + |b|..|a| + |b| + |c|] == c
            && p[|p| - |e|..] == e
  {
    var p := a + b + c + d + e;
    assert p == a + (b + (c + (d + e)));
    assert p[..|a|] == a;
    assert p[|a|..] == b + (c + (d + e));
    assert p[|a|..][..|b|] == b;
    assert p[|a| + |b|..] == c + (d + e);
    assert p[|a| + |b|..][..|c|] == c;
  }

  /** The metadata of each result, in order. */
  function Sources(results: seq<Element>): (ms: seq<Metadata>)
    ensures |ms| == |results|
    ensures forall i :: 0 <= i < |results| ==> ms[i] == results[i].metadata
  {
    seq(|results|, i requires 0 <= i < |results| => results[i].metadata)
  }

  /** Two calls logged one after the other. */
  lemma LogTwice(log: seq<ModelCall>, a: ModelCall, b: ModelCall)
    ensures log + [a] + [b] == log + [a, b]
  {
  }

  class Rag {
    /** The sentence-embedding model. */
    const embed: string -> Vector
    /** The language model, with its fixed system persona and options. */
    const generate: string -> string
    /** `str` of a tag list, used by the embedding text. */
    const showTags: seq<string> -> string
    const store: VectorStore
    /** The fixed texts of the grounding prompt. */
    const template: PromptTemplate
    /** The calls made to the two models so far. */
    ghost var calls: seq<ModelCall>

    constructor (embed: string -> Vector, generate: string -> string,
                 showTags: seq<string> -> string, sim: (Vector, Vector) -> real)
      ensures this.embed == embed && this.generate == generate && this.showTags == showTags
      ensures fresh(store) && store.elements == [] && store.sim == sim
      ensures template == RagTemplate
      ensures calls == []
    {
      template := RagTemplate;
      this.embed := embed;
      this.generate := generate;
      this.showTags := showTags;
      store := new VectorStore(sim);
      calls := [];
    }

    method Embed(t: string) returns (v: Vector)
      modifies this`calls
      ensures v == embed(t)
      ensures calls == old(calls) + [EmbedCall(t)]
    {
      v := embed(t);
      calls := calls + [EmbedCall(t)];
    }

    method Generate(prompt: string) returns (response: string)
      modifies this`calls
      ensures response == generate(prompt)
      ensures calls == old(calls) + [GenerateCall(prompt)]
    {
      response := generate(prompt);
      calls := calls + [GenerateCall(prompt)];
    }

    /** Appends one element per manifest row, in row order, to whatever the
        store already holds. */
    method LoadManifest(rows: seq<ManifestRow>)
      modifies store, this`calls
      ensures store.elements == old(store.elements) + ManifestElements(rows, embed, showTags)
      ensures calls == old(calls) + EmbedCalls(rows, showTags)
    {
      var i := 0;
      while i < |rows|
        invariant 0 <= i <= |rows|
        invariant store.elements == old(store.elements) + ManifestElements(rows[..i], embed, showTags)
        invariant calls == old(calls) + EmbedCalls(rows[..i], showTags)
      {
        var row := rows[i];
        var metadata := Metadata(row.imageId, row.image, row.caption, row.tags, row.location);
        var t := BuildText(metadata, showTags);
        var embedding := Embed(t);
        var element := Element(row.imageId, embedding, metadata);
        store.Add(element);
        assert ManifestElements(rows[..i + 1], embed, showTags)
               == ManifestElements(rows[..i], embed, showTags) + [element];
        assert EmbedCalls(rows[..i + 1], showTags) == EmbedCalls(rows[..i], showTags) + [EmbedCall(t)];
        i := i + 1;
      }
      assert rows[..i] == rows;
    }

    /** Assembles the grounding prompt block by block. */
    method CreatePrompt(q: string, elements: seq<Element>) returns (prompt: string)
      ensures prompt == Prompt(template, q, elements)
    {
      prompt := Preamble(template, q);
      ConcatEmpty(prompt);
      var i := 0;
      while i < |elements|
        invariant 0 <= i <= |elements|
        invariant prompt == Preamble(template, q) + Blocks(elements[..i], 1)
      {
        PromptStep(Preamble(template, q), elements, i);
        prompt := prompt + Block(i + 1, elements[i].metadata);
        i := i + 1;
      }
      assert elements[..i] == elements;
      prompt := prompt + template.closing;
    }

    /** Answers `q` from the `k` best-matching elements; None, with no model
        called, while the store is empty. */
    method Ask(q: string, k: int) returns (r: Option<Answer>)
      modifies this`calls
      ensures store.elements == [] ==> r == None && calls == old(calls)
      ensures store.elements != [] ==>
                var results := store.Query(embed(q), k);
                var prompt := Prompt(template, q, results);
                && r == Some(Answer(generate(prompt), Sources(results)))
                && calls == old(calls) + [EmbedCall(q), GenerateCall(prompt)]
    {
      if store.elements == [] {
        return None;
      }
      var queryEmbedding := Embed(q);
      var results := store.Query(queryEmbedding, k);
      var prompt := CreatePrompt(q, results);
      var response := Generate(prompt);
      LogTwice(old(calls), EmbedCall(q), GenerateCall(prompt));
      r := Some(Answer(response, Sources(results)));
    }
  }
}
