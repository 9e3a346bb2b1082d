/**
 * utils/validation.py: InputValidator, ResponseValidator and DataValidator.
 * Every validator either returns True or raises ValueError with a fixed
 * Russian message; here that is an Outcome<bool>. The five "dangerous"
 * regular expressions are written out as predicates over the query.
 */
module Validation {
  import opened Text
  import opened Values
  import opened Errors

  const EmptyQueryMessage := "Запрос не может быть пустым"
  const TooShortMessage := "Запрос слишком короткий (минимум 3 символа)"
  const TooLongMessage := "Запрос слишком длинный (максимум 1000 символов)"
  const DangerousMessage := "Запрос содержит недопустимые элементы"
  const InvalidLevelMessage := "Недопустимый уровень сложности. Допустимые: ['easy', 'medium', 'hard']"

  const MinQueryLength := 3
  const MaxQueryLength := 1000

  // ---------------------------------------------------------------------------
  // The dangerous patterns, searched with re.IGNORECASE
  // ---------------------------------------------------------------------------

  /**
   * The character that a lower-case ASCII pattern letter is compared with
   * under re.IGNORECASE: ASCII upper case folds to lower case, and Python's
   * matcher also equates dotless i and dotted capital I with i, long s with
   * s, and the Kelvin sign with k.
   */
  function Fold(c: char): char
  {
    if 'A' <= c <= 'Z' then (c as int + 32) as char
    else if c == '\U{131}' || c == '\U{130}' then 'i'
    else if c == '\U{17f}' then 's'
    else if c == '\U{212a}' then 'k'
    else c
  }

  /** The literal `lit` (lower-case) matches s at index i, ignoring case. */
  predicate LiteralAt(s: string, i: int, lit: string)
  {
    0 <= i && i + |lit| <= |s| && forall k | 0 <= k < |lit| :: Fold(s[i + k]) == lit[k]
  }

  /** \w: ASCII letters and digits, '_' and the letters of the Cyrillic block. */
  predicate IsWordChar(c: char)
  {
    ('a' <= c <= 'z') || ('A' <= c <= 'Z') || ('0' <= c <= '9') || c == '_'
    || ('\U{400}' <= c <= '\U{481}') || ('\U{48a}' <= c <= '\U{4ff}')
  }

  predicate WordRun(s: string, a: int, b: int)
    requires 0 <= a <= b <= |s|
  {
    forall m | a <= m < b :: IsWordChar(s[m])
  }

  predicate SpaceRun(s: string, a: int, b: int)
    requires 0 <= a <= b <= |s|
  {
    forall m | a <= m < b :: IsSpace(s[m])
  }

  /** The five entries of dangerous_patterns, in the source's order. */
  datatype Pattern =
    | ScriptElement     // <script.*?>.*?</script>
    | JavascriptScheme  // javascript:
    | EventHandler      // on\w+\s*=
    | EvalCall          // eval\s*\(
    | ExecCall          // exec\s*\(

  const DangerousPatterns := [ScriptElement, JavascriptScheme, EventHandler, EvalCall, ExecCall]

  /** "<script" ... ">" ... "</script>", where '.' matches anything but a newline. */
  predicate ScriptElementAt(s: string, i: int)
  {
    LiteralAt(s, i, "<script")
    && exists k | i + 7 <= k <= |s| ::
         LiteralAt(s, k, "</script>")
         && (forall m | i + 7 <= m < k :: s[m] != '\n')
         && (exists m | i + 7 <= m < k :: s[m] == '>')
  }

  /** "on", one or more word characters, optional whitespace, "=". */
  predicate EventHandlerAt(s: string, i: int)
  {
    LiteralAt(s, i, "on")
    && exists j, k | i + 2 < j <= k < |s| :: WordRun(s, i + 2, j) && SpaceRun(s, j, k) && s[k] == '='
  }

  /** name (four letters), optional whitespace, "(". */
  predicate CallAt(s: string, i: int, name: string)
    requires |name| == 4
  {
    LiteralAt(s, i, name)
    && exists k | i + 4 <= k < |s| :: SpaceRun(s, i + 4, k) && s[k] == '('
  }

  /** A match of pattern p begins at index i of s. */
  predicate MatchAt(p: Pattern, s: string, i: int)
  {
    match p
    case ScriptElement => ScriptElementAt(s, i)
    case JavascriptScheme => LiteralAt(s, i, "javascript:")
    case EventHandler => EventHandlerAt(s, i)
    case EvalCall => CallAt(s, i, "eval")
    case ExecCall => CallAt(s, i, "exec")
  }

  /** re.search(p, s, re.IGNORECASE) finds a match. */
  predicate Search(p: Pattern, s: string)
  {
    exists i | 0 <= i <= |s| :: MatchAt(p, s, i)
  }

  predicate ContainsDangerous(q: string)
  {
    exists p | p in DangerousPatterns :: Search(p, q)
  }

  // ---------------------------------------------------------------------------
  // InputValidator
  // ---------------------------------------------------------------------------

  /** InputValidator.validate_query: emptiness, then stripped length, then raw length, then patterns. */
  function ValidateQuery(q: string): (r: Outcome<bool>)
    ensures r.Returned? <==> !AllSpace(q) && |Strip(q)| >= MinQueryLength && |q| <= MaxQueryLength && !ContainsDangerous(q)
    ensures r.Returned? ==> r.value
    ensures r.Raised? ==> r.exc.ty == Foreign("ValueError")
    ensures AllSpace(q) ==> r == Raised(ValueError(EmptyQueryMessage))
    ensures !AllSpace(q) && |Strip(q)| < MinQueryLength ==> r == Raised(ValueError(TooShortMessage))
    ensures |Strip(q)| >= MinQueryLength && |q| > MaxQueryLength ==> r == Raised(ValueError(TooLongMessage))
    ensures |Strip(q)| >= MinQueryLength && |q| <= MaxQueryLength && ContainsDangerous(q) ==> r == Raised(ValueError(DangerousMessage))
  {
    if q == [] || Strip(q) == [] then Raised(ValueError(EmptyQueryMessage))
    else if |Strip(q)| < MinQueryLength then Raised(ValueError(TooShortMessage))
    else if |q| > MaxQueryLength then Raised(ValueError(TooLongMessage))
    else if ContainsDangerous(q) then Raised(ValueError(DangerousMessage))
    else Returned(true)
  }

  const ValidLevels := ["easy", "medium", "hard"]

  /** InputValidator.validate_complexity_level. */
  function ValidateComplexityLevel(level: string): (r: Outcome<bool>)
    ensures r.Returned? <==> level == "easy" || level == "medium" || level == "hard"
    ensures r.Returned? ==> r.value
    ensures r.Raised? ==> r.exc == ValueError(InvalidLevelMessage)
  {
    if level in ValidLevels then Returned(true) else Raised(ValueError(InvalidLevelMessage))
  }

  /** The characters the second re.sub of sanitize_query deletes. */
  predicate IsQuoteChar(c: char)
  {
    c == '<' || c == '>' || c == '"' || c == '\''
  }

  /** The characters that sanitize_query never drops or changes. */
  predicate IsVisible(c: char)
  {
    !IsSpace(c) && !IsQuoteChar(c)
  }

  /** The visible characters of s, in order. */
  function VisibleChars(s: string): (r: string)
    ensures forall i | 0 <= i < |r| :: IsVisible(r[i])
  {
    if s == [] then [] else (if IsVisible(s[0]) then [s[0]] else []) + VisibleChars(s[1..])
  }

  predicate NoAdjacentSpaces(s: string)
  {
    forall i | 0 <= i < |s| - 1 :: !(IsSpace(s[i]) && IsSpace(s[i + 1]))
  }

  /** re.sub(r"\s+", " ", s): every maximal whitespace run becomes one blank. */
  function CollapseWhitespace(s: string): (r: string)
    ensures |r| <= |s|
    ensures r == [] <==> s == []
    ensures NoAdjacentSpaces(r)
    ensures forall i | 0 <= i < |r| && IsSpace(r[i]) :: r[i] == ' '
    ensures r != [] ==> (IsSpace(r[0]) <==> IsSpace(s[0]))
    ensures r != [] ==> (IsSpace(r[|r| - 1]) <==> IsSpace(s[|s| - 1]))
    decreases |s|
  {
    if s == [] then []
    else if IsSpace(s[0]) then
      var rest := s[LeadCount(s)..];
      [' '] + CollapseWhitespace(rest)
    else [s[0]] + CollapseWhitespace(s[1..])
  }

  /** re.sub(r'[<>"\']', "", s). */
  function RemoveQuoteChars(s: string): (r: string)
    ensures |r| <= |s|
    ensures forall i | 0 <= i < |r| :: !IsQuoteChar(r[i])
    ensures forall i | 0 <= i < |r| :: r[i] in s
    ensures (forall i | 0 <= i < |s| :: !IsQuoteChar(s[i])) ==> r == s
  {
    if s == [] then [] else (if IsQuoteChar(s[0]) then [] else [s[0]]) + RemoveQuoteChars(s[1..])
  }

  /** InputValidator.sanitize_query. */
  function SanitizeQuery(q: string): (r: string)
    ensures forall i | 0 <= i < |r| :: !IsQuoteChar(r[i])
    ensures forall i | 0 <= i < |r| && IsSpace(r[i]) :: r[i] == ' '
  {
    RemoveQuoteChars(CollapseWhitespace(Strip(q)))
  }

  lemma {:induction false} VisibleCharsAppend(a: string, b: string)
    ensures VisibleChars(a + b) == VisibleChars(a) + VisibleChars(b)
  {
    if a != [] {
      var head := if IsVisible(a[0]) then [a[0]] else [];
      assert (a + b)[0] == a[0];
      assert (a + b)[1..] == a[1..] + b;
      VisibleCharsAppend(a[1..], b);
      calc {
        VisibleChars(a + b);
        head + VisibleChars(a[1..] + b);
        head + (VisibleChars(a[1..]) + VisibleChars(b));
        (head + VisibleChars(a[1..])) + VisibleChars(b);
        VisibleChars(a) + VisibleChars(b);
      }
    } else {
      assert a + b == b;
    }
  }

  lemma {:induction false} VisibleCharsOfSpaces(s: string)
    requires AllSpace(s)
    ensures VisibleChars(s) == []
  {
    if s != [] {
      VisibleCharsOfSpaces(s[1..]);
    }
  }

  lemma StripKeepsVisible(s: string)
    ensures VisibleChars(Strip(s)) == VisibleChars(s)
  {
    var a := LeadCount(s);
    var r := Strip(s);
    var b := a + |r|;
    var lead, trail := s[..a], s[b..];
    assert AllSpace(lead) by {
      forall i | 0 <= i < |lead| ensures IsSpace(lead[i]) {
        assert lead[i] == s[i];
      }
    }
    assert AllSpace(trail) by {
      forall i | 0 <= i < |trail| ensures IsSpace(trail[i]) {
        assert trail[i] == s[b + i];
      }
    }
    assert s == lead + r + trail;
    VisibleCharsAppend(lead + r, trail);
    VisibleCharsAppend(lead, r);
    VisibleCharsOfSpaces(lead);
    VisibleCharsOfSpaces(trail);
    assert VisibleChars(s) == [] + VisibleChars(r) + [];
  }

  lemma {:induction false} CollapseKeepsVisible(s: string)
    ensures VisibleChars(CollapseWhitespace(s)) == VisibleChars(s)
    decreases |s|
  {
    if s != [] {
      if IsSpace(s[0]) {
        var n := LeadCount(s);
        var rest := s[n..];
        CollapseKeepsVisible(rest);
        VisibleCharsAppend([' '], CollapseWhitespace(rest));
        assert s == s[..n] + rest;
        VisibleCharsAppend(s[..n], rest);
        VisibleCharsOfSpaces(s[..n]);
      } else {
        CollapseKeepsVisible(s[1..]);
        VisibleCharsAppend([s[0]], CollapseWhitespace(s[1..]));
        assert s == [s[0]] + s[1..];
        VisibleCharsAppend([s[0]], s[1..]);
      }
    }
  }

  lemma {:induction false} RemoveKeepsVisible(s: string)
    ensures VisibleChars(RemoveQuoteChars(s)) == VisibleChars(s)
  {
    if s != [] {
      RemoveKeepsVisible(s[1..]);
      var head := if IsQuoteChar(s[0]) then [] else [s[0]];
      VisibleCharsAppend(head, RemoveQuoteChars(s[1..]));
      assert s == [s[0]] + s[1..];
      VisibleCharsAppend([s[0]], s[1..]);
    }
  }

  /** Sanitising drops only whitespace and the four quote characters: the rest survives, in order. */
  lemma SanitizeKeepsVisible(q: string)
    ensures VisibleChars(SanitizeQuery(q)) == VisibleChars(q)
  {
    StripKeepsVisible(q);
    CollapseKeepsVisible(Strip(q));
    RemoveKeepsVisible(CollapseWhitespace(Strip(q)));
  }

  /**
   * A query without quote characters comes out tidy: no whitespace at either
   * end, no whitespace other than single blanks.
   */
  lemma SanitizeTidyWithoutQuotes(q: string)
    requires forall i | 0 <= i < |q| :: !IsQuoteChar(q[i])
    ensures var r := SanitizeQuery(q);
      NoAdjacentSpaces(r) && (r != [] ==> !IsSpace(r[0]) && !IsSpace(r[|r| - 1]))
  {
    var t := Strip(q);
    var a := LeadCount(q);
    forall i | 0 <= i < |t| ensures !IsQuoteChar(t[i]) {
      assert t[i] == q[a + i];
    }
    var c := CollapseWhitespace(t);
    CollapseNoQuotes(t);
    assert SanitizeQuery(q) == c;
    if c != [] {
      assert !IsSpace(t[0]) && !IsSpace(t[|t| - 1]);
    }
  }

  lemma {:induction false} CollapseNoQuotes(s: string)
    requires forall i | 0 <= i < |s| :: !IsQuoteChar(s[i])
    ensures forall i | 0 <= i < |CollapseWhitespace(s)| :: !IsQuoteChar(CollapseWhitespace(s)[i])
    decreases |s|
  {
    if s != [] {
      if IsSpace(s[0]) {
        CollapseNoQuotes(s[LeadCount(s)..]);
      } else {
        CollapseNoQuotes(s[1..]);
      }
    }
  }

  lemma {:induction false} LeadCountAfterVisible(a: string, t: string)
    requires a != [] && !IsSpace(a[|a| - 1])
    ensures LeadCount(a + t) == LeadCount(a)
  {
    if IsSpace(a[0]) {
      assert (a + t)[1..] == a[1..] + t;
      LeadCountAfterVisible(a[1..], t);
    }
  }

  lemma {:induction false} LeadCountOfRun(w: string, b: string)
    requires AllSpace(w) && (b == [] || !IsSpace(b[0]))
    ensures LeadCount(w + b) == |w|
  {
    if w == [] {
      assert w + b == b;
    } else {
      assert (w + b)[1..] == w[1..] + b;
      LeadCountOfRun(w[1..], b);
    }
  }

  /** CollapseWhitespace unfolded once on text that starts with whitespace. */
  lemma CollapseLeadingRun(s: string)
    requires s != [] && IsSpace(s[0])
    ensures CollapseWhitespace(s) == [' '] + CollapseWhitespace(s[LeadCount(s)..])
  {
  }

  /** CollapseWhitespace unfolded once on text that starts with a visible character. */
  lemma CollapseVisibleHead(s: string)
    requires s != [] && !IsSpace(s[0])
    ensures CollapseWhitespace(s) == [s[0]] + CollapseWhitespace(s[1..])
  {
  }

  /** One step of CollapseAfterVisible: a leading run of a is collapsed before t is reached. */
  lemma CollapseLeadingRunOf(a: string, t: string)
    requires a != [] && IsSpace(a[0]) && !IsSpace(a[|a| - 1])
    requires var rest := a[LeadCount(a)..];
      CollapseWhitespace(rest + t) == CollapseWhitespace(rest) + CollapseWhitespace(t)
    ensures CollapseWhitespace(a + t) == CollapseWhitespace(a) + CollapseWhitespace(t)
  {
    var s := a + t;
    var n := LeadCount(a);
    LeadCountAfterVisible(a, t);
    assert s[0] == a[0];
    DropFromAppend(a, t, n);
    CollapseLeadingRun(s);
    CollapseLeadingRun(a);
    AppendAssociates([' '], CollapseWhitespace(a[n..]), CollapseWhitespace(t));
  }

  /** One step of CollapseAfterVisible: a visible first character is copied. */
  lemma CollapseVisibleHeadOf(a: string, t: string)
    requires a != [] && !IsSpace(a[0])
    requires CollapseWhitespace(a[1..] + t) == CollapseWhitespace(a[1..]) + CollapseWhitespace(t)
    ensures CollapseWhitespace(a + t) == CollapseWhitespace(a) + CollapseWhitespace(t)
  {
    var s := a + t;
    assert s[0] == a[0];
    DropFromAppend(a, t, 1);
    CollapseVisibleHead(s);
    CollapseVisibleHead(a);
    AppendAssociates([a[0]], CollapseWhitespace(a[1..]), CollapseWhitespace(t));
  }

  /** Text ending in a visible character is collapsed on its own: no run reaches across its end. */
  lemma {:induction false} CollapseAfterVisible(a: string, t: string)
    requires a == [] || !IsSpace(a[|a| - 1])
    ensures CollapseWhitespace(a + t) == CollapseWhitespace(a) + CollapseWhitespace(t)
    decreases |a|
  {
    if a == [] {
      assert a + t == t;
    } else if IsSpace(a[0]) {
      var n := LeadCount(a);
      assert n < |a|;
      CollapseAfterVisible(a[n..], t);
      CollapseLeadingRunOf(a, t);
    } else {
      CollapseAfterVisible(a[1..], t);
      CollapseVisibleHeadOf(a, t);
    }
  }

  /** A whole whitespace run in front of visible text becomes one blank. */
  lemma CollapseRun(w: string, b: string)
    requires w != [] && AllSpace(w) && (b == [] || !IsSpace(b[0]))
    ensures CollapseWhitespace(w + b) == " " + CollapseWhitespace(b)
  {
    LeadCountOfRun(w, b);
    assert (w + b)[0] == w[0];
    DropFromAppend(w, b, |w|);
  }

  /**
   * re.sub(r"\s+", " ", s): a maximal whitespace run between two texts is
   * replaced by exactly one blank, whatever characters and length it had.
   */
  lemma CollapseSeparates(a: string, w: string, b: string)
    requires a == [] || !IsSpace(a[|a| - 1])
    requires w != [] && AllSpace(w)
    requires b == [] || !IsSpace(b[0])
    ensures CollapseWhitespace(a + w + b) == CollapseWhitespace(a) + " " + CollapseWhitespace(b)
  {
    AppendAssociates(a, w, b);
    CollapseAfterVisible(a, w + b);
    CollapseRun(w, b);
    AppendAssociates(CollapseWhitespace(a), " ", CollapseWhitespace(b));
  }

  /**
   * Two trimmed, quote-free words or phrases separated by any whitespace run
   * are sanitised separately and joined by a single blank.
   */
  lemma SanitizeSeparates(a: string, w: string, b: string)
    requires a != [] && !IsSpace(a[0]) && !IsSpace(a[|a| - 1])
    requires b != [] && !IsSpace(b[0]) && !IsSpace(b[|b| - 1])
    requires w != [] && AllSpace(w)
    requires forall i | 0 <= i < |a| :: !IsQuoteChar(a[i])
    requires forall i | 0 <= i < |b| :: !IsQuoteChar(b[i])
    ensures SanitizeQuery(a + w + b) == SanitizeQuery(a) + " " + SanitizeQuery(b)
  {
    var s := a + w + b;
    assert s[0] == a[0] && s[|s| - 1] == b[|b| - 1];
    forall i | 0 <= i < |s| ensures !IsQuoteChar(s[i]) {
      if i < |a| {
        assert s[i] == a[i];
      } else if i < |a| + |w| {
        assert s[i] == w[i - |a|];
      } else {
        assert s[i] == b[i - |a| - |w|];
      }
    }
    StripTrimmed(s);
    StripTrimmed(a);
    StripTrimmed(b);
    CollapseSeparates(a, w, b);
    CollapseNoQuotes(s);
    CollapseNoQuotes(a);
    CollapseNoQuotes(b);
  }

  /**
   * Deleting quote characters can re-create what collapsing removed, so
   * sanitising is not idempotent.
   */
  lemma SanitizeNotIdempotent()
    ensures SanitizeQuery("< b") == " b"
    ensures SanitizeQuery(" b") == "b"
  {
    SanitizeQuotedBlank();
    SanitizeLeadingBlank();
  }

  /** "< b" is already stripped and collapsed; only the quote character goes. */
  lemma SanitizeQuotedBlank()
    ensures SanitizeQuery("< b") == " b"
  {
    assert LeadCount("< b") == 0;
    assert TrailCount("< b") == 0;
    assert Strip("< b") == "< b";
    assert CollapseWhitespace("b") == "b";
    assert CollapseWhitespace(" b") == " b";
    assert CollapseWhitespace("< b") == "< b";
    assert RemoveQuoteChars(" b") == " b";
  }

  /** " b" loses its leading blank to strip. */
  lemma SanitizeLeadingBlank()
    ensures SanitizeQuery(" b") == "b"
  {
    assert LeadCount(" b") == 1;
    assert Strip(" b") == "b";
    assert CollapseWhitespace("b") == "b";
    assert RemoveQuoteChars("b") == "b";
  }

  // ---------------------------------------------------------------------------
  // ResponseValidator
  // ---------------------------------------------------------------------------

  const RequiredFields := ["answer", "sources", "complexity_level"]

  /** Index of the first of `fields` missing from the response, if any. */
  function FirstMissing(response: map<string, Value>, fields: seq<string>): (r: Option<nat>)
    ensures r.Some? ==> r.value < |fields| && fields[r.value] !in response
    ensures r.Some? ==> forall j | 0 <= j < r.value :: fields[j] in response
    ensures r.None? <==> forall j | 0 <= j < |fields| :: fields[j] in response
  {
    if fields == [] then None
    else if fields[0] !in response then Some(0)
    else match FirstMissing(response, fields[1..])
      case Some(k) => Some(k + 1)
      case None => None
  }

  /** The shape validate_response accepts. */
  predicate WellFormedResponse(response: map<string, Value>)
  {
    && "answer" in response && response["answer"].Str?
    && "sources" in response && response["sources"].List?
    && "complexity_level" in response && response["complexity_level"].Str?
  }

  /** ResponseValidator.validate_response: presence in field order, then the three types. */
  function ValidateResponse(response: map<string, Value>): (r: Outcome<bool>)
    ensures r.Returned? <==> WellFormedResponse(response)
    ensures r.Returned? ==> r.value
    ensures forall k | 0 <= k < |RequiredFields| && RequiredFields[k] !in response ::
      (forall j | 0 <= j < k :: RequiredFields[j] in response) ==>
        r == Raised(ValueError("Отсутствует обязательное поле: " + RequiredFields[k]))
    ensures "answer" in response && "sources" in response && "complexity_level" in response && !response["answer"].Str? ==>
      r == Raised(ValueError("Поле 'answer' должно быть строкой"))
  {
    match FirstMissing(response, RequiredFields)
    case Some(k) => Raised(ValueError("Отсутствует обязательное поле: " + RequiredFields[k]))
    case None =>
      assert RequiredFields[0] in response && RequiredFields[1] in response && RequiredFields[2] in response;
      if !response["answer"].Str? then Raised(ValueError("Поле 'answer' должно быть строкой"))
      else if !response["sources"].List? then Raised(ValueError("Поле 'sources' должно быть списком"))
      else if !response["complexity_level"].Str? then Raised(ValueError("Поле 'complexity_level' должно быть строкой"))
      else Returned(true)
  }

  /** A source entry validate_sources accepts: a dict with source_file, url or title. */
  predicate IdentifiedSource(v: Value)
  {
    v.Dict? && ("source_file" in v.entries || "url" in v.entries || "title" in v.entries)
  }

  /** Index of the first rejected source at or after `from`, if any. */
  function FirstBadSource(sources: seq<Value>, from: nat): (r: Option<nat>)
    requires from <= |sources|
    ensures r.Some? ==> from <= r.value < |sources| && !IdentifiedSource(sources[r.value])
    ensures r.Some? ==> forall j | from <= j < r.value :: IdentifiedSource(sources[j])
    ensures r.None? <==> forall j | from <= j < |sources| :: IdentifiedSource(sources[j])
    decreases |sources| - from
  {
    if from == |sources| then None
    else if !IdentifiedSource(sources[from]) then Some(from)
    else FirstBadSource(sources, from + 1)
  }

  /** The message raised for the source at index i. */
  function SourceError(sources: seq<Value>, i: nat): Exception
    requires i < |sources|
  {
    if !sources[i].Dict? then ValueError("Источник " + NatToString(i) + " должен быть словарем")
    else ValueError("Источник " + NatToString(i) + " должен содержать идентификатор")
  }

  /** ResponseValidator.validate_sources: raises at the first bad index. */
  function ValidateSources(sources: seq<Value>): (r: Outcome<bool>)
    ensures r.Returned? <==> forall i | 0 <= i < |sources| :: IdentifiedSource(sources[i])
    ensures r.Returned? ==> r.value
    ensures r.Raised? ==> exists i | 0 <= i < |sources| :: !IdentifiedSource(sources[i]) && r == Raised(SourceError(sources, i))
  {
    match FirstBadSource(sources, 0)
    case None => Returned(true)
    case Some(i) => Raised(SourceError(sources, i))
  }

  /** validate_sources reports the first rejected index, not any later one. */
  lemma ValidateSourcesReportsFirst(sources: seq<Value>, i: nat)
    requires i < |sources| && !IdentifiedSource(sources[i])
    requires forall j | 0 <= j < i :: IdentifiedSource(sources[j])
    ensures ValidateSources(sources) == Raised(SourceError(sources, i))
  {
    var f := FirstBadSource(sources, 0);
    assert f.Some?;
    assert f.value == i;
  }

  // ---------------------------------------------------------------------------
  // DataValidator
  // ---------------------------------------------------------------------------

  /** DataValidator.validate_document_content. */
  function ValidateDocumentContent(content: string): (ok: bool)
    ensures ok <==> !AllSpace(content) && |Strip(content)| >= 10 && |content| <= 100000
  {
    if content == [] || Strip(content) == [] then false
    else if |Strip(content)| < 10 then false
    else if |content| > 100000 then false
    else true
  }

  /** DataValidator.validate_metadata: a dict carrying source_file or url. */
  function ValidateMetadata(metadata: Value): (r: Outcome<bool>)
    ensures r.Returned? <==> metadata.Dict? && ("source_file" in metadata.entries || "url" in metadata.entries)
    ensures r.Returned? ==> r.value
    ensures !metadata.Dict? ==> r == Raised(ValueError("Метаданные должны быть словарем"))
  {
    if !metadata.Dict? then Raised(ValueError("Метаданные должны быть словарем"))
    else if "source_file" !in metadata.entries && "url" !in metadata.entries then
      Raised(ValueError("Метаданные должны содержать source_file или url"))
    else Returned(true)
  }

  /** Document metadata that passes validate_metadata also passes validate_sources; not conversely. */
  lemma MetadataImpliesSource(metadata: Value)
    ensures ValidateMetadata(metadata).Returned? ==> ValidateSources([metadata]).Returned?
    ensures ValidateSources([Dict(map["title" := Str("t")])]).Returned?
    ensures ValidateMetadata(Dict(map["title" := Str("t")])).Raised?
  {
  }
}
