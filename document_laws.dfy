/**
 * What the `get`, `set`, `remove` and `list` bodies promise, stated on the
 * document seen as a mapping (`ToMap`) and on its key order (`Keys`).
 */
module DocumentLaws {
  import opened Common
  import opened Dicts
  import opened Document

  /** Assigning a value keeps the document well formed when the value is. */
  lemma AssignWfDoc(doc: Doc, k: string, v: Value)
    requires WfDoc(doc)
    requires v.Cat? ==> Wf(v.entries)
    ensures WfDoc(Assign(doc, k, v))
  {
    AssignWf(doc, k, v);
    AssignToMap(doc, k, v);
  }

  /** Deleting a top-level key keeps the document well formed. */
  lemma DeleteWfDoc(doc: Doc, k: string)
    requires WfDoc(doc)
    ensures WfDoc(Delete(doc, k))
  {
    DeleteWf(doc, k);
    DeleteToMap(doc, k);
  }

  /**
   * `set` without a category stores the string under the key, replacing
   * whatever was there (a whole category included); every other entry and
   * the key order stay as they were, a new key going last.
   */
  lemma SetTopLevel(doc: Doc, key: string, value: string, category: Option<string>)
    requires !Given(category)
    ensures
      var r := Set(doc, key, value, category);
      && r.Write?
      && ToMap(r.doc) == ToMap(doc)[key := Str(value)]
      && Keys(r.doc) == (if key in Keys(doc) then Keys(doc) else Keys(doc) + [key])
      && (WfDoc(doc) ==> WfDoc(r.doc))
  {
    AssignToMap(doc, key, Str(value));
    AssignKeys(doc, key, Str(value));
    if WfDoc(doc) {
      AssignWfDoc(doc, key, Str(value));
    }
  }

  /** Storing `m[key] = value` as category `c`: the shape both branches of `set` reach. */
  lemma PutInCategory(doc: Doc, c: string, m: Dict<string>, key: string, value: string)
    ensures
      var filled := Assign(m, key, value);
      var d := Assign(doc, c, Cat(filled));
      && ToMap(d) == ToMap(doc)[c := Cat(filled)]
      && ToMap(filled) == ToMap(m)[key := value]
      && Keys(filled) == (if key in Keys(m) then Keys(m) else Keys(m) + [key])
      && Keys(d) == (if c in Keys(doc) then Keys(doc) else Keys(doc) + [c])
      && (WfDoc(doc) && Wf(m) ==> WfDoc(d))
  {
    var filled := Assign(m, key, value);
    AssignToMap(doc, c, Cat(filled));
    AssignKeys(doc, c, Cat(filled));
    AssignToMap(m, key, value);
    AssignKeys(m, key, value);
    if WfDoc(doc) && Wf(m) {
      AssignWf(m, key, value);
      AssignWfDoc(doc, c, Cat(filled));
    }
  }

  /** `set` into a category that names a string raises TypeError. */
  lemma SetInScalarCategory(doc: Doc, key: string, value: string, category: Option<string>)
    requires Given(category)
    requires category.value in ToMap(doc) && ToMap(doc)[category.value].Str?
    ensures Set(doc, key, value, category) == Crash(TypeError)
  {
  }

  /**
   * `set` with a category that is absent or a map: the category (created
   * empty and appended when absent) maps the key to the value, its other
   * keys and their order unchanged, and no other top-level entry changes.
   */
  lemma SetInCategory(doc: Doc, key: string, value: string, category: Option<string>)
    requires Given(category)
    requires category.value !in ToMap(doc) || ToMap(doc)[category.value].Cat?
    ensures
      var c := category.value;
      var M := ToMap(doc);
      var before: Dict<string> := if c in M then M[c].entries else [];
      var r := Set(doc, key, value, category);
      && r.Write?
      && c in ToMap(r.doc) && ToMap(r.doc)[c].Cat?
      && ToMap(ToMap(r.doc)[c].entries) == ToMap(before)[key := value]
      && Keys(ToMap(r.doc)[c].entries)
         == (if key in Keys(before) then Keys(before) else Keys(before) + [key])
      && ToMap(r.doc) - {c} == M - {c}
      && Keys(r.doc) == (if c in M then Keys(doc) else Keys(doc) + [c])
      && (WfDoc(doc) ==> WfDoc(r.doc))
  {
    var c := category.value;
    var M := ToMap(doc);
    if c in M {
      var m := M[c].entries;
      PutInCategory(doc, c, m, key, value);
      MapRemoveAssigned(M, c, Cat(Assign(m, key, value)));
    } else {
      var empty: Dict<string> := [];
      var withCategory := Assign(doc, c, Cat(empty));
      AssignToMap(doc, c, Cat(empty));
      AssignKeys(doc, c, Cat(empty));
      PutInCategory(withCategory, c, empty, key, value);
      MapRemoveAssigned(M, c, Cat(empty));
      MapRemoveAssigned(ToMap(withCategory), c, Cat(Assign(empty, key, value)));
      if WfDoc(doc) {
        AssignWfDoc(doc, c, Cat(empty));
      }
    }
  }

  lemma MapRemoveAssigned(M: map<string, Value>, c: string, v: Value)
    ensures M[c := v] - {c} == M - {c}
  {
  }

  /** `set` followed by `get` of the same key and category answers the value just set. */
  lemma SetThenGet(doc: Doc, key: string, value: string, category: Option<string>)
    requires Set(doc, key, value, category).Write?
    ensures Get(Set(doc, key, value, category).doc, key, category) == Found(Str(value))
  {
    if Given(category) {
      var c := category.value;
      if c !in ToMap(doc) || ToMap(doc)[c].Cat? {
        SetInCategory(doc, key, value, category);
      }
    } else {
      SetTopLevel(doc, key, value, category);
    }
  }

  /** Whatever `set` pushes is well formed when the fetched document was. */
  lemma SetKeepsWf(doc: Doc, key: string, value: string, category: Option<string>)
    requires WfDoc(doc)
    requires Set(doc, key, value, category).Write?
    ensures WfDoc(Set(doc, key, value, category).doc)
  {
    if !Given(category) {
      SetTopLevel(doc, key, value, category);
    } else if category.value !in ToMap(doc) || ToMap(doc)[category.value].Cat? {
      SetInCategory(doc, key, value, category);
    }
  }

  /**
   * `remove` without a category pushes nothing when the key is absent, and
   * otherwise pushes the document without that key, the other keys in order.
   */
  lemma RemoveTopLevel(doc: Doc, key: string, category: Option<string>)
    requires WfDoc(doc)
    requires !Given(category)
    ensures
      var r := Remove(doc, key, category);
      && (r == NoWrite <==> key !in ToMap(doc))
      && (key in ToMap(doc) ==>
            && r.Write?
            && ToMap(r.doc) == ToMap(doc) - {key}
            && Keys(r.doc) == Without(Keys(doc), key)
            && WfDoc(r.doc))
  {
    if key in Keys(doc) {
      DeleteToMap(doc, key);
      DeleteKeys(doc, key);
      DeleteWfDoc(doc, key);
    }
  }

  /** Without a category, removing twice leaves the same document as removing once. */
  lemma RemoveTopLevelIdempotent(doc: Doc, key: string, category: Option<string>)
    requires WfDoc(doc)
    requires !Given(category)
    ensures
      var once := After(doc, Remove(doc, key, category));
      && once.Some?
      && After(once.value, Remove(once.value, key, category)) == once
  {
    RemoveTopLevel(doc, key, category);
    var once := After(doc, Remove(doc, key, category)).value;
    RemoveTopLevel(once, key, category);
  }

  /** `remove` with a category that is absent pushes nothing. */
  lemma RemoveInAbsentCategory(doc: Doc, key: string, category: Option<string>)
    requires Given(category) && category.value !in ToMap(doc)
    ensures Remove(doc, key, category) == NoWrite
  {
  }

  /**
   * `remove` with a category that names a string: a TypeError when the key
   * is a substring of it; otherwise the top-level key is deleted, or the
   * command raises KeyError when it is absent.
   */
  lemma RemoveInScalarCategory(doc: Doc, key: string, category: Option<string>)
    requires WfDoc(doc)
    requires Given(category)
    requires category.value in ToMap(doc) && ToMap(doc)[category.value].Str?
    ensures
      var M := ToMap(doc);
      var r := Remove(doc, key, category);
      if Contains(M[category.value].s, key) then r == Crash(TypeError)
      else if key in M then
        && r.Write?
        && ToMap(r.doc) == M - {key}
        && Keys(r.doc) == Without(Keys(doc), key)
        && WfDoc(r.doc)
      else r == Crash(KeyError)
  {
    if key in Keys(doc) {
      DeleteToMap(doc, key);
      DeleteKeys(doc, key);
      DeleteWfDoc(doc, key);
    }
  }

  /**
   * `remove` with a category that is a map takes the key out of the category
   * when it is there, and then deletes the TOP-LEVEL entry of the same key:
   * an unrelated entry when it exists, and a KeyError when it does not, in
   * which case the category deletion is never pushed.
   */
  lemma RemoveInCategory(doc: Doc, key: string, category: Option<string>)
    requires WfDoc(doc)
    requires Given(category)
    requires category.value in ToMap(doc) && ToMap(doc)[category.value].Cat?
    ensures
      var c := category.value;
      var M := ToMap(doc);
      var inner := M[c].entries;
      var pruned := if key in ToMap(inner) then Delete(inner, key) else inner;
      var r := Remove(doc, key, category);
      && ToMap(pruned) == ToMap(inner) - {key}
      && (key !in M ==> r == Crash(KeyError))
      && (key in M ==>
            && r.Write?
            && ToMap(r.doc) == M[c := Cat(pruned)] - {key}
            && Keys(r.doc) == Without(Keys(doc), key)
            && WfDoc(r.doc))
  {
    var c := category.value;
    var m := ToMap(doc)[c].entries;
    if key in ToMap(m) {
      DeleteToMap(m, key);
      RemoveInCategoryHit(doc, c, m, key);
    } else {
      assert ToMap(m) - {key} == ToMap(m);
      RemoveInCategoryMiss(doc, c, m, key);
    }
  }

  lemma RemoveInCategoryHit(doc: Doc, c: string, m: Dict<string>, key: string)
    requires WfDoc(doc) && c != ""
    requires c in ToMap(doc) && ToMap(doc)[c] == Cat(m) && key in ToMap(m)
    ensures
      var M := ToMap(doc);
      var r := Remove(doc, key, Some(c));
      && (key !in M ==> r == Crash(KeyError))
      && (key in M ==>
            && r.Write?
            && ToMap(r.doc) == M[c := Cat(Delete(m, key))] - {key}
            && Keys(r.doc) == Without(Keys(doc), key)
            && WfDoc(r.doc))
  {
    assert Remove(doc, key, Some(c)) == DeleteTop(Assign(doc, c, Cat(Delete(m, key))), key);
    DeleteWf(m, key);
    PruneThenDelete(doc, c, Delete(m, key), key);
  }

  lemma RemoveInCategoryMiss(doc: Doc, c: string, m: Dict<string>, key: string)
    requires WfDoc(doc) && c != ""
    requires c in ToMap(doc) && ToMap(doc)[c] == Cat(m) && key !in ToMap(m)
    ensures
      var M := ToMap(doc);
      var r := Remove(doc, key, Some(c));
      && (key !in M ==> r == Crash(KeyError))
      && (key in M ==>
            && r.Write?
            && ToMap(r.doc) == M[c := Cat(m)] - {key}
            && Keys(r.doc) == Without(Keys(doc), key)
            && WfDoc(r.doc))
  {
    assert Remove(doc, key, Some(c)) == DeleteTop(doc, key);
    assert ToMap(doc)[c := Cat(m)] == ToMap(doc);
    if key in Keys(doc) {
      DeleteToMap(doc, key);
      DeleteKeys(doc, key);
      DeleteWfDoc(doc, key);
    }
  }

  /** Replacing category `c` by `pruned`, then deleting top-level `key`. */
  lemma PruneThenDelete(doc: Doc, c: string, pruned: Dict<string>, key: string)
    requires WfDoc(doc) && Wf(pruned) && c in ToMap(doc)
    ensures
      var inner := Assign(doc, c, Cat(pruned));
      && (key in Keys(inner) <==> key in ToMap(doc))
      && DeleteTop(inner, key)
         == (if key in ToMap(doc) then Write(Delete(inner, key)) else Crash(KeyError))
      && (key in ToMap(doc) ==>
            && ToMap(Delete(inner, key)) == ToMap(doc)[c := Cat(pruned)] - {key}
            && Keys(Delete(inner, key)) == Without(Keys(doc), key)
            && WfDoc(Delete(inner, key)))
  {
    var inner := Assign(doc, c, Cat(pruned));
    AssignToMap(doc, c, Cat(pruned));
    AssignKeys(doc, c, Cat(pruned));
    AssignWfDoc(doc, c, Cat(pruned));
    if key in Keys(inner) {
      DeleteToMap(inner, key);
      DeleteKeys(inner, key);
      DeleteWfDoc(inner, key);
    }
  }

  /**
   * `list` without a category prints every top-level key once, in document
   * order; with a category present as a map it prints that category's keys;
   * with an absent category it fails and prints nothing.
   */
  lemma ListingSpec(doc: Doc, category: Option<string>)
    requires WfDoc(doc)
    ensures
      var M := ToMap(doc);
      var r := Listing(doc, category);
      && (!Given(category) ==>
            && r == Lines(Keys(doc))
            && Distinct(r.lines)
            && forall k :: k in r.lines <==> k in M)
      && (Given(category) && category.value !in M ==> r == Fail)
      && (Given(category) && category.value in M && M[category.value].Cat? ==>
            var inner := M[category.value].entries;
            && r == Lines(Keys(inner))
            && Distinct(r.lines)
            && forall k :: k in r.lines <==> k in ToMap(inner))
  {
    WfDistinct(doc);
    if Given(category) && category.value in ToMap(doc) && ToMap(doc)[category.value].Cat? {
      WfDistinct(ToMap(doc)[category.value].entries);
    }
  }
}

/** Worked examples of the command bodies on small documents. */
module DocumentExamples {
  import opened Common
  import opened Dicts
  import opened Document

  /** An empty category name addresses the top level, exactly like no category. */
  lemma EmptyCategoryIsTopLevel(doc: Doc, key: string, value: string)
    ensures Get(doc, key, Some("")) == Get(doc, key, None)
    ensures Set(doc, key, value, Some("")) == Set(doc, key, value, None)
    ensures Remove(doc, key, Some("")) == Remove(doc, key, None)
    ensures Listing(doc, Some("")) == Listing(doc, None)
  {
  }

  /** `get db user` finds the category value; `get db pass` falls back to the top level and misses. */
  lemma GetExamples()
    ensures Get([("db", Cat([("user", "alice")]))], "user", Some("db")) == Found(Str("alice"))
    ensures Get([("db", Cat([("user", "alice")]))], "pass", Some("db")) == Miss
    ensures Get([("db", Cat([("user", "alice")])), ("pass", Str("x"))], "pass", Some("db"))
            == Found(Str("x"))
  {
  }

  /** `set debug true` and `set debug true -c flags` on an empty document. */
  lemma SetExamples()
    ensures Set([], "debug", "true", None) == Write([("debug", Str("true"))])
    ensures Set([], "debug", "true", Some("flags")) == Write([("flags", Cat([("debug", "true")]))])
  {
  }

  /** `list` prints the keys in insertion order; an absent category fails. */
  lemma ListExamples()
    ensures Listing([("a", Str("1")), ("b", Str("2"))], None) == Lines(["a", "b"])
    ensures Listing([("a", Str("1")), ("b", Str("2"))], Some("c")) == Fail
  {
  }

  /** `remove user -c db` also deletes an unrelated top-level `user`. */
  lemma RemoveInCategoryDeletesTopLevel()
    ensures Remove([("db", Cat([("user", "alice")])), ("user", Str("root"))], "user", Some("db"))
            == Write([("db", Cat([]))])
  {
    var doc: Doc := [("db", Cat([("user", "alice")])), ("user", Str("root"))];
    var m: Dict<string> := [("user", "alice")];
    assert Keys(m) == ["user"];
    assert Delete(m, "user") == [];
    var pruned := Assign(doc, "db", Cat([]));
    assert pruned == [("db", Cat([]))] + doc[1..];
    assert Keys(pruned) == ["db", "user"];
    assert Delete(pruned, "user") == [("db", Cat([]))];
  }

  /** Without a top-level `user`, `remove user -c db` raises and the category keeps its key. */
  lemma RemoveInCategoryLosesDeletion()
    ensures Remove([("db", Cat([("user", "alice")]))], "user", Some("db")) == Crash(KeyError)
  {
  }

  /** With a category, `remove` is not idempotent: the second run raises KeyError. */
  lemma RemoveInCategoryNotIdempotent()
    ensures
      var doc: Doc := [("db", Cat([("user", "alice")])), ("user", Str("root"))];
      var once := After(doc, Remove(doc, "user", Some("db")));
      && once == Some([("db", Cat([]))])
      && After(once.value, Remove(once.value, "user", Some("db"))) == None
  {
    RemoveInCategoryDeletesTopLevel();
    var after: Doc := [("db", Cat([]))];
    assert Keys(after) == ["db"];
  }
}
