/**
 * app.py: the Streamlit page's text logic. format_sources appends the
 * "Источники: [1], [2], ..." trailer to a medium answer, and the source
 * expander shows one line per source. Widgets, session state and the page
 * layout are not modelled.
 */
module App {
  import opened Text
  import opened Values
  import opened Errors
  import opened Validation
  import opened RagChain

  /** Python's type name for a value, as an AttributeError message shows it. */
  function TypeName(v: Value): string
  {
    match v
    case Str(_) => "str"
    case Int(_) => "int"
    case Bool(_) => "bool"
    case NoneValue => "NoneType"
    case List(_) => "list"
    case Dict(_) => "dict"
  }

  /** What `source.get(...)` raises on a source that is not a dict. */
  function NoGetError(v: Value): Exception
  {
    Exception(Foreign("AttributeError"), "'" + TypeName(v) + "' object has no attribute 'get'")
  }

  /** Index of the first source that is not a dict, if any. */
  function FirstNonDict(sources: seq<Value>): (r: Option<nat>)
    ensures r.Some? ==> r.value < |sources| && !sources[r.value].Dict?
    ensures r.Some? ==> forall j | 0 <= j < r.value :: sources[j].Dict?
    ensures r.None? <==> forall j | 0 <= j < |sources| :: sources[j].Dict?
  {
    if sources == [] then None
    else if !sources[0].Dict? then Some(0)
    else
      match FirstNonDict(sources[1..])
      case None => None
      case Some(k) => Some(k + 1)
  }

  /** The labels "[1]" … "[n]". */
  function Labels(n: nat): (labels: seq<string>)
    ensures |labels| == n
    ensures forall k | 0 <= k < n :: labels[k] == Label(k + 1)
  {
    seq(n, k requires 0 <= k < n => Label(k + 1))
  }

  const SourcesHeading := "\n\nИсточники: "

  /**
   * format_sources: "" for easy; otherwise every source is read with .get
   * (raising on a non-dict), and only medium gets the trailer, which depends
   * on the number of sources alone.
   */
  function FormatSources(sources: seq<Value>, level: string): Outcome<string>
  {
    if level == "easy" then Returned("")
    else
      match FirstNonDict(sources)
      case Some(k) => Raised(NoGetError(sources[k]))
      case None =>
        if level == "medium" then Returned(SourcesHeading + Join(", ", Labels(|sources|)))
        else Returned("")
  }

  /**
   * The medium trailer names every source in order: label [k+1] sits at its
   * join offset after the heading, and the trailer ends with the last label.
   * That the trailer is exactly the heading and the labels joined by ", " is
   * stated by FormattedAnswerKeepsAnswer.
   */
  lemma MediumTrailerLabels(sources: seq<Value>, k: nat)
    requires forall j | 0 <= j < |sources| :: sources[j].Dict?
    requires k < |sources|
    ensures var t := FormatSources(sources, "medium");
      var at := |SourcesHeading| + JoinOffset(", ", Labels(|sources|), k);
      && t.Returned?
      && StartsWith(t.value, SourcesHeading)
      && OccursAt(t.value, Label(k + 1), at)
      && |t.value| == |SourcesHeading| + JoinOffset(", ", Labels(|sources|), |sources| - 1) + |Label(|sources|)|
  {
    var labels := Labels(|sources|);
    JoinLength(", ", labels);
    var t := SourcesHeading + Join(", ", labels);
    assert FormatSources(sources, "medium") == Returned(t);
    JoinPartAt(", ", labels, k);
    assert labels[k] == Label(k + 1);
    var o := JoinOffset(", ", labels, k);
    assert t[|SourcesHeading| + o..|SourcesHeading| + o + |labels[k]|] == Join(", ", labels)[o..o + |labels[k]|];
  }

  /** Which sources are listed does not matter, only how many there are. */
  lemma FormatSourcesCountsOnly(a: seq<Value>, b: seq<Value>, level: string)
    requires |a| == |b|
    requires forall j | 0 <= j < |a| :: a[j].Dict?
    requires forall j | 0 <= j < |b| :: b[j].Dict?
    ensures FormatSources(a, level) == FormatSources(b, level)
  {
  }

  /**
   * Only medium ever gets text back: easy is "" whatever the sources, hard is
   * "" once the sources are dicts, and a non-dict source makes every level
   * but easy raise.
   */
  lemma FormatSourcesLevels(sources: seq<Value>, level: string)
    ensures level == "easy" ==> FormatSources(sources, level) == Returned("")
    ensures level != "easy" && level != "medium" && (forall j | 0 <= j < |sources| :: sources[j].Dict?) ==>
      FormatSources(sources, level) == Returned("")
    ensures level != "easy" && (exists j | 0 <= j < |sources| :: !sources[j].Dict?) ==>
      FormatSources(sources, level).Raised? && FormatSources(sources, level).exc.ty == Foreign("AttributeError")
  {
  }

  /** Sources that passed validate_sources never make format_sources raise. */
  lemma ValidatedSourcesFormat(sources: seq<Value>, level: string)
    requires ValidateSources(sources).Returned?
    ensures FormatSources(sources, level).Returned?
  {
    assert forall j | 0 <= j < |sources| :: IdentifiedSource(sources[j]);
  }

  /** The answer shown: the trailer is appended only for medium with a non-empty source list. */
  function FormattedAnswer(answer: string, sources: seq<Value>, level: string): Outcome<string>
  {
    if level == "medium" && sources != [] then
      match FormatSources(sources, level)
      case Raised(e) => Raised(e)
      case Returned(trailer) => Returned(answer + trailer)
    else Returned(answer)
  }

  /**
   * The model's answer is always shown first and unchanged; anything after it
   * is the medium trailer; without sources, or at another level, nothing is
   * added.
   */
  lemma FormattedAnswerKeepsAnswer(answer: string, sources: seq<Value>, level: string)
    requires forall j | 0 <= j < |sources| :: sources[j].Dict?
    ensures var f := FormattedAnswer(answer, sources, level);
      && f.Returned?
      && StartsWith(f.value, answer)
      && (level != "medium" || sources == [] ==> f.value == answer)
      && (level == "medium" && sources != [] ==>
            f.value == answer + SourcesHeading + Join(", ", Labels(|sources|)))
  {
    var f := FormattedAnswer(answer, sources, level);
    if level == "medium" && sources != [] {
      var t := SourcesHeading + Join(", ", Labels(|sources|));
      assert f == Returned(answer + t);
      assert (answer + t)[..|answer|] == answer;
    }
  }

  const UnknownSource := "Неизвестный источник"

  /** The name the expander shows for a dict source: source_file, else url, else "Неизвестный источник". */
  function DisplayName(md: Metadata): string
  {
    Display(Get(md, "source_file", Get(md, "url", Str(UnknownSource))))
  }

  /** One expander line per source, "**[i]** name", or the AttributeError of the first non-dict. */
  function ExpanderLines(sources: seq<Value>): (r: Outcome<seq<string>>)
    ensures r.Returned? <==> forall j | 0 <= j < |sources| :: sources[j].Dict?
    ensures r.Returned? ==> |r.value| == |sources|
    ensures r.Returned? ==> forall k | 0 <= k < |sources| :: r.value[k] == "**" + Label(k + 1) + "** " + DisplayName(sources[k].entries)
  {
    match FirstNonDict(sources)
    case Some(k) => Raised(NoGetError(sources[k]))
    case None =>
      Returned(seq(|sources|, k requires 0 <= k < |sources| => "**" + Label(k + 1) + "** " + DisplayName(sources[k].entries)))
  }

  /**
   * The expander agrees with the context the model saw: source k is shown
   * under the same label [k+1] as its context block, and under the same name
   * whenever it has a source_file or url; without either the context says
   * "Источник k+1" and the expander "Неизвестный источник".
   */
  lemma ExpanderMatchesContext(docs: seq<Document>, k: nat)
    requires k < |docs|
    ensures var lines := ExpanderLines(Sources(docs));
      && lines.Returned?
      && StartsWith(lines.value[k], "**" + Label(k + 1))
      && StartsWith(ReferenceBlocks(docs)[k], Label(k + 1))
      && (("source_file" in docs[k].metadata || "url" in docs[k].metadata) ==>
            DisplayName(docs[k].metadata) == Display(SourceName(docs[k].metadata, k + 1)))
      && (!("source_file" in docs[k].metadata || "url" in docs[k].metadata) ==>
            DisplayName(docs[k].metadata) == UnknownSource
            && Display(SourceName(docs[k].metadata, k + 1)) == "Источник " + NatToString(k + 1))
  {
    var sources := Sources(docs);
    var lines := ExpanderLines(sources);
    assert lines.Returned?;
    var line := "**" + Label(k + 1) + "** " + DisplayName(docs[k].metadata);
    assert lines.value[k] == line;
    assert line[..|"**" + Label(k + 1)|] == "**" + Label(k + 1);
    var block := ReferenceBlock(docs[k], k + 1);
    assert ReferenceBlocks(docs)[k] == block;
    assert block[..|Label(k + 1)|] == Label(k + 1);
  }
}
