/**
 * The decoded secret document and the bodies of the `get`, `set`, `remove`
 * and `list` commands acting on it. A document maps keys to values; a value
 * is a string or a one-level category of string to string. Both levels keep
 * Python's insertion order.
 */
module Document {
  import opened Common
  import opened Dicts

  datatype Value = Str(s: string) | Cat(entries: Dict<string>)

  type Doc = Dict<Value>

  /** Keys are distinct at the top level and inside every category. */
  ghost predicate WfDoc(doc: Doc)
  {
    && Wf(doc)
    && forall c :: c in ToMap(doc) && ToMap(doc)[c].Cat? ==> Wf(ToMap(doc)[c].entries)
  }

  /** `if category:` — an absent and an empty category both mean the top level. */
  predicate Given(category: Option<string>)
  {
    category.Some? && category.value != ""
  }

  /** Python's `sub in s` when `s` is a string: a substring test. */
  predicate Contains(s: string, sub: string)
  {
    sub <= s || (s != [] && Contains(s[1..], sub))
  }

  /** `sub in s` holds exactly when `sub` is some slice of `s`. */
  lemma {:induction false} ContainsSlice(s: string, sub: string)
    ensures Contains(s, sub) <==> exists i, j :: 0 <= i <= j <= |s| && s[i..j] == sub
  {
    if sub <= s {
      assert s[0..|sub|] == sub;
    } else if s == [] {
    } else {
      ContainsSlice(s[1..], sub);
      if exists i, j :: 0 <= i <= j <= |s| && s[i..j] == sub {
        var i, j :| 0 <= i <= j <= |s| && s[i..j] == sub;
        assert i != 0;
        assert s[1..][i - 1..j - 1] == sub;
      }
      if Contains(s[1..], sub) {
        var i, j :| 0 <= i <= j <= |s[1..]| && s[1..][i..j] == sub;
        assert s[i + 1..j + 1] == sub;
      }
    }
  }

  // ---------------------------------------------------------------- get

  datatype GetOutcome = Found(value: Value) | Miss | GetCrash(error: Failure)

  function TopLevelGet(doc: Doc, key: string): GetOutcome
  {
    match Find(doc, key)
    case Some(v) => Found(v)
    case None => Miss
  }

  /** The body of `get`: the category first, then the top level as a fallback. */
  function Get(doc: Doc, key: string, category: Option<string>): GetOutcome
  {
    if Given(category) && Find(doc, category.value).Some? then
      match Find(doc, category.value).value
      case Cat(m) =>
        if Find(m, key).Some? then Found(Str(Find(m, key).value)) else TopLevelGet(doc, key)
      case Str(s) =>
        // `key in "text"` is a substring test; `"text"[key]` then raises
        if Contains(s, key) then GetCrash(TypeError) else TopLevelGet(doc, key)
    else
      TopLevelGet(doc, key)
  }

  /**
   * What `get` answers, in terms of the document as a mapping: the value in
   * the category when both exist, a TypeError when the category is a string
   * containing the key, otherwise the top-level value, and a miss only when
   * every lookup failed.
   */
  lemma GetSpec(doc: Doc, key: string, category: Option<string>)
    ensures
      var M := ToMap(doc);
      var r := Get(doc, key, category);
      var inCategory := Given(category) && category.value in M && M[category.value].Cat?
                        && key in ToMap(M[category.value].entries);
      var scalarHit := Given(category) && category.value in M && M[category.value].Str?
                       && Contains(M[category.value].s, key);
      && (inCategory ==> r == Found(Str(ToMap(M[category.value].entries)[key])))
      && (scalarHit ==> r == GetCrash(TypeError))
      && (!inCategory && !scalarHit && key in M ==> r == Found(M[key]))
      && (r == Miss <==> !inCategory && !scalarHit && key !in M)
  {
  }

  // ---------------------------------------------------------------- set and remove

  /** What a writing command does: push nothing, push a new document, or raise. */
  datatype WriteOutcome = NoWrite | Write(doc: Doc) | Crash(error: Failure)

  /** The document the secret holds afterwards, if the command did not raise. */
  function After(doc: Doc, r: WriteOutcome): Option<Doc>
  {
    match r
    case NoWrite => Some(doc)
    case Write(d) => Some(d)
    case Crash(_) => None
  }

  /** The body of `set`. */
  function Set(doc: Doc, key: string, value: string, category: Option<string>): WriteOutcome
  {
    if Given(category) then
      var c := category.value;
      match Find<Value>(doc, c)
      case None =>
        var withCategory := Assign(doc, c, Cat([]));
        Write(Assign(withCategory, c, Cat(Assign([], key, value))))
      case Some(Cat(m)) =>
        Write(Assign(doc, c, Cat(Assign(m, key, value))))
      case Some(Str(_)) =>
        // item assignment on a string
        Crash(TypeError)
    else
      Write(Assign(doc, key, Str(value)))
  }

  /** `del doc[key]`, raising KeyError when the key is absent. */
  function DeleteTop(doc: Doc, key: string): WriteOutcome
  {
    if key in Keys(doc) then Write(Delete(doc, key)) else Crash(KeyError)
  }

  /**
   * The body of `remove`. With a category it deletes the key inside the
   * category and then, unconditionally, the top-level entry of the same key.
   */
  function Remove(doc: Doc, key: string, category: Option<string>): WriteOutcome
  {
    if Given(category) then
      var c := category.value;
      match Find<Value>(doc, c)
      case None => NoWrite
      case Some(Cat(m)) =>
        var inner := if key in Keys(m) then Assign(doc, c, Cat(Delete(m, key))) else doc;
        DeleteTop(inner, key)
      case Some(Str(s)) =>
        if Contains(s, key) then Crash(TypeError) else DeleteTop(doc, key)
    else if key !in Keys(doc) then NoWrite
    else Write(Delete(doc, key))
  }

  // ---------------------------------------------------------------- list

  datatype ListOutcome = Lines(lines: seq<string>) | Fail

  /** Iterating a string yields its characters. */
  function Chars(s: string): (r: seq<string>)
    ensures |r| == |s|
    ensures forall i :: 0 <= i < |s| ==> r[i] == [s[i]]
  {
    if s == [] then [] else [[s[0]]] + Chars(s[1..])
  }

  /** What `list` prints: one line per key of the document or of the category. */
  function Listing(doc: Doc, category: Option<string>): ListOutcome
  {
    if Given(category) then
      match Find<Value>(doc, category.value)
      case None => Fail
      case Some(Cat(m)) => Lines(Keys(m))
      case Some(Str(s)) => Lines(Chars(s))
    else
      Lines(Keys(doc))
  }

  /** The `for key in d` loop of `list`. */
  method EmitKeys<V>(d: Dict<V>) returns (lines: seq<string>)
    ensures lines == Keys(d)
  {
    lines := [];
    var i := 0;
    while i < |d|
      invariant 0 <= i <= |d|
      invariant lines == Keys(d)[..i]
    {
      lines := lines + [d[i].0];
      i := i + 1;
    }
  }

  /** The same loop when the category names a string: one line per character. */
  method EmitChars(s: string) returns (lines: seq<string>)
    ensures lines == Chars(s)
  {
    lines := [];
    var i := 0;
    while i < |s|
      invariant 0 <= i <= |s|
      invariant lines == Chars(s)[..i]
    {
      lines := lines + [[s[i]]];
      i := i + 1;
    }
  }

  /** The body of `list`. */
  method List(doc: Doc, category: Option<string>) returns (out: ListOutcome)
    ensures out == Listing(doc, category)
  {
    if Given(category) {
      var found := Find(doc, category.value);
      if found.None? {
        return Fail;
      }
      match found.value
      case Cat(m) =>
        var lines := EmitKeys(m);
        return Lines(lines);
      case Str(s) =>
        var lines := EmitChars(s);
        return Lines(lines);
    }
    var lines := EmitKeys(doc);
    out := Lines(lines);
  }
}
