/** Parsing of one "Skills" cell (`preprocess_skills`). A cell is missing
    (NaN) or a string; the string is first given to Python's
    `ast.literal_eval`, which is not reimplemented here: its outcome comes
    from the `literalEval` parameter. */
module Skills {
  import opened Wrappers
  import opened Text

  /** The values `ast.literal_eval` can produce, as far as skill parsing
      tells them apart: a string, a list, or anything else (numbers, tuples,
      dictionaries, sets, booleans, `None`, and bytes). */
  datatype PyValue = PyStr(text: string) | PyList(items: seq<PyValue>) | PyOther

  /** The exceptions that can arise while parsing a cell: those
      `ast.literal_eval` raises (a malformed literal, an unparsable string,
      an unhashable dictionary key or set element, nesting too deep, a literal
      too large) and the one a list element without `strip` raises. */
  datatype PyException =
    | ValueError | SyntaxError | TypeError | RecursionError | MemoryError
    | AttributeError

  /** What `ast.literal_eval` does with a string: return a value or raise. */
  datatype EvalOutcome = Evaluated(value: PyValue) | Raised(exception: PyException)

  /** Strips and lower-cases every list element; an element that is not a
      string has no `strip` method, so the first one raises `AttributeError`.
      Skills here are text only: a bytes element, which Python would strip
      and lower-case into a bytes skill, is treated like any other
      non-string element. */
  function CleanItems(items: seq<PyValue>): (r: Result<seq<string>, PyException>)
    ensures r.Ok? <==> forall i :: 0 <= i < |items| ==> items[i].PyStr?
    ensures r.Err? ==> r.error == AttributeError
    ensures r.Ok? ==> |r.value| == |items|
    ensures r.Ok? ==> forall i :: 0 <= i < |items| ==> r.value[i] == Clean(items[i].text)
  {
    if items == [] then Ok([])
    else if !items[0].PyStr? then Err(AttributeError)
    else
      match CleanItems(items[1..])
      case Ok(rest) => Ok([Clean(items[0].text)] + rest)
      case Err(e) => Err(e)
  }

  /** Strips and lower-cases every piece; over strings this cannot fail. */
  function CleanAll(pieces: seq<string>): (r: seq<string>)
    ensures |r| == |pieces|
    ensures forall i :: 0 <= i < |r| ==> IsTrimmed(r[i]) && IsLower(r[i])
  {
    var r := seq(|pieces|, i requires 0 <= i < |pieces| => Clean(pieces[i]));
    assert forall i :: 0 <= i < |r| ==> IsTrimmed(r[i]) && IsLower(r[i]) by {
      forall i | 0 <= i < |r| ensures IsTrimmed(r[i]) && IsLower(r[i]) {
        CleanIsNormal(pieces[i]);
      }
    }
    r
  }

  /** `preprocess_skills(skills)`. A `ValueError` from `literal_eval` falls
      back to comma splitting; any other exception escapes, since the
      `except` clause names only `ValueError`. */
  function PreprocessSkills(skills: Option<string>, literalEval: string -> EvalOutcome): (r: Result<seq<string>, PyException>)
    ensures skills.None? ==> r == Ok([])
    ensures skills.Some? && literalEval(skills.value).Evaluated? && !literalEval(skills.value).value.PyList?
            ==> r == Ok([])
    ensures skills.Some? && literalEval(skills.value).Raised? && literalEval(skills.value).exception != ValueError
            ==> r == Err(literalEval(skills.value).exception)
    ensures r.Err? ==> skills.Some? && r.error != ValueError
  {
    match skills
    case None => Ok([])
    case Some(s) =>
      match literalEval(s)
      case Evaluated(PyList(items)) => CleanItems(items)
      case Evaluated(_) => Ok([])
      case Raised(ValueError) => Ok(CleanAll(Split(s, ',')))
      case Raised(e) => Err(e)
  }

  /** A list literal is parsed element by element: the result has one skill
      per element, in order, unless some element is not a string. */
  lemma ListLiteralParsed(s: string, items: seq<PyValue>, literalEval: string -> EvalOutcome)
    requires literalEval(s) == Evaluated(PyList(items))
    ensures var r := PreprocessSkills(Some(s), literalEval);
            && (r.Ok? <==> forall i :: 0 <= i < |items| ==> items[i].PyStr?)
            && (r.Err? ==> r.error == AttributeError)
            && (r.Ok? ==> |r.value| == |items| &&
                          forall i :: 0 <= i < |items| ==> r.value[i] == Clean(items[i].text))
  {
  }

  /** In the comma-split fallback there is exactly one skill per
      comma-separated piece (one more than there are commas), in order, each
      the piece stripped and lower-cased; and the pieces rejoined with commas
      give back the cell. */
  lemma {:induction false} CommaFallback(s: string, literalEval: string -> EvalOutcome)
    requires literalEval(s) == Raised(ValueError)
    ensures var r := PreprocessSkills(Some(s), literalEval);
            var pieces := Split(s, ',');
            && r.Ok?
            && |r.value| == |pieces| == multiset(s)[','] + 1
            && (forall i :: 0 <= i < |pieces| ==> r.value[i] == Clean(pieces[i]))
            && Join(pieces, ',') == s
  {
    SplitLength(s, ',');
    JoinSplit(s, ',');
  }

  /** Every skill `preprocess_skills` returns is in normal form: no
      surrounding whitespace, no upper-case letter, and stripping and
      lower-casing it again changes nothing. */
  lemma {:induction false} SkillsAreNormal(skills: Option<string>, literalEval: string -> EvalOutcome)
    ensures var r := PreprocessSkills(skills, literalEval);
            r.Ok? ==> forall i :: 0 <= i < |r.value| ==>
                        IsTrimmed(r.value[i]) && IsLower(r.value[i]) && Clean(r.value[i]) == r.value[i]
  {
    var r := PreprocessSkills(skills, literalEval);
    if r.Ok? {
      forall i | 0 <= i < |r.value|
        ensures IsTrimmed(r.value[i]) && IsLower(r.value[i]) && Clean(r.value[i]) == r.value[i]
      {
        var s := skills.value;
        match literalEval(s)
        case Evaluated(PyList(items)) =>
          CleanIsNormal(items[i].text);
        case Raised(ValueError) =>
          CleanIsNormal(Split(s, ',')[i]);
      }
    }
  }

  /** Parsing is idempotent on its own output: a skill list printed as
      comma-separated text and parsed by the fallback gives the same list
      back, provided no skill contains a comma. */
  lemma {:induction false} FallbackReparse(skills: Option<string>, literalEval: string -> EvalOutcome, again: string -> EvalOutcome)
    requires PreprocessSkills(skills, literalEval).Ok?
    requires var out := PreprocessSkills(skills, literalEval).value;
             |out| >= 1 && (forall i :: 0 <= i < |out| ==> ',' !in out[i]) &&
             again(Join(out, ',')) == Raised(ValueError)
    ensures var out := PreprocessSkills(skills, literalEval).value;
            PreprocessSkills(Some(Join(out, ',')), again) == Ok(out)
  {
    var out := PreprocessSkills(skills, literalEval).value;
    SplitJoin(out, ',');
    SkillsAreNormal(skills, literalEval);
    assert CleanAll(out) == out;
  }
}
