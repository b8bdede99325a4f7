/** What the vsomanifest builder promises: how each kind of key changes the
    document, that key dispatch ignores case, that keys for different
    properties can be applied in either order, that the defaults of
    `finalize` are idempotent, and how localization key paths are rewritten. */
module VsoManifestProperties {
  import opened JsValue
  import opened JsStrings
  import opened VsoManifest

  /** `after` differs from `before` at most in the property `name`. */
  ghost predicate OnlyChanged(before: Doc, after: Doc, name: string)
  {
    && (forall k :: k != name ==> (k in after <==> k in before))
    && (forall k :: k != name && k in before ==> after[k] == before[k])
  }

  // ---------------------------------------------------------------------
  // lodash `_.uniq`

  /** The elements of `Uniq(s)` come in the order of their first occurrence
      in `s`. */
  lemma {:induction false} UniqOrder(s: seq<Value>)
    ensures forall i, j :: 0 <= i < j < |Uniq(s)| ==> FirstIndex(s, Uniq(s)[i]) < FirstIndex(s, Uniq(s)[j])
  {
    if |s| > 0 {
      var init := s[..|s| - 1];
      var x := s[|s| - 1];
      var p := Uniq(init);
      var q := Uniq(s);
      UniqOrder(init);
      assert s == init + [x];
      assert q == if x in p then p else p + [x];
      forall i, j | 0 <= i < j < |q| ensures FirstIndex(s, q[i]) < FirstIndex(s, q[j]) {
        assert q[i] == p[i] && p[i] in init;
        FirstIndexOfPrefix(init, [x], p[i]);
        if j < |p| {
          assert q[j] == p[j] && p[j] in init;
          FirstIndexOfPrefix(init, [x], p[j]);
        } else {
          assert q[j] == x && x !in init;
          assert FirstIndex(s, x) == |s| - 1;
        }
      }
    }
  }

  lemma {:induction false} FirstIndexOfPrefix(a: seq<Value>, b: seq<Value>, y: Value)
    requires y in a
    ensures FirstIndex(a + b, y) == FirstIndex(a, y)
  {
    var k := FirstIndex(a, y);
    assert (a + b)[k] == y;
  }

  /** A sequence without duplicates is its own `_.uniq`. */
  lemma {:induction false} UniqOfDistinct(s: seq<Value>)
    requires NoDuplicates(s)
    ensures Uniq(s) == s
  {
    if |s| > 0 {
      var init := s[..|s| - 1];
      assert NoDuplicates(init);
      UniqOfDistinct(init);
      assert s[|s| - 1] !in init;
      assert s == init + [s[|s| - 1]];
    }
  }

  /** Appending elements that are already present changes nothing. */
  lemma {:induction false} UniqAbsorbs(r: seq<Value>, b: seq<Value>)
    requires forall x :: x in b ==> x in r
    ensures Uniq(r + b) == Uniq(r)
  {
    if |b| > 0 {
      var init := b[..|b| - 1];
      UniqAbsorbs(r, init);
      assert (r + b)[..|r + b| - 1] == r + init;
      assert b[|b| - 1] in b;
    } else {
      assert r + b == r;
    }
  }

  // ---------------------------------------------------------------------
  // processKey

  /** `contributions`: anything but an array throws and changes nothing; an
      array is appended, in order, to the existing list (or to `[]`). */
  lemma {:induction false} ContributionsAppended(doc: Doc, key: string, value: Value, override: bool)
    requires WellShaped(doc) && Lower(key) == "contributions"
    ensures Merge(doc, key, value, override).Thrown? <==> !value.Arr?
    ensures value.Arr? ==>
      var after := Merge(doc, key, value, override).value;
      var was := ListAt(doc, "contributions");
      && "contributions" in after
      && after["contributions"].items[..|was|] == was
      && after["contributions"].items[|was|..] == value.items
      && OnlyChanged(doc, after, "contributions")
  {
  }

  /** `contributionTypes`: an array is appended in order; anything else is
      silently ignored. */
  lemma {:induction false} ContributionTypesAppended(doc: Doc, key: string, value: Value, override: bool)
    requires WellShaped(doc) && Lower(key) == "contributiontypes"
    ensures !value.Arr? ==> Merge(doc, key, value, override) == Ok(doc)
    ensures value.Arr? ==>
      var after := Merge(doc, key, value, override).value;
      var was := ListAt(doc, "contributionTypes");
      && Merge(doc, key, value, override).Ok?
      && "contributionTypes" in after
      && after["contributionTypes"].items[..|was|] == was
      && after["contributionTypes"].items[|was|..] == value.items
      && OnlyChanged(doc, after, "contributionTypes")
  {
  }

  /** `scopes`: an array is merged into the scopes without duplicates; the
      result holds every old and every new scope, in order of first
      occurrence. Anything else is silently ignored. */
  lemma {:induction false} ScopesMerged(doc: Doc, key: string, value: Value, override: bool)
    requires WellShaped(doc) && Lower(key) == "scopes"
    ensures !value.Arr? ==> Merge(doc, key, value, override) == Ok(doc)
    ensures value.Arr? ==>
      var after := Merge(doc, key, value, override).value;
      var all := ListAt(doc, "scopes") + value.items;
      && Merge(doc, key, value, override).Ok?
      && "scopes" in after && after["scopes"].Arr?
      && NoDuplicates(after["scopes"].items)
      && (forall x :: x in after["scopes"].items <==> x in ListAt(doc, "scopes") || x in value.items)
      && (forall i, j :: 0 <= i < j < |after["scopes"].items| ==>
            FirstIndex(all, after["scopes"].items[i]) < FirstIndex(all, after["scopes"].items[j]))
      && OnlyChanged(doc, after, "scopes")
  {
    if value.Arr? {
      UniqOrder(ListAt(doc, "scopes") + value.items);
    }
  }

  /** Merging the same scopes twice is the same as merging them once. */
  lemma {:induction false} ScopesIdempotent(doc: Doc, key: string, value: Value, override: bool)
    requires WellShaped(doc) && Lower(key) == "scopes"
    ensures Merge(doc, key, value, override).Ok?
    ensures Merge(Merge(doc, key, value, override).value, key, value, override)
         == Merge(doc, key, value, override)
  {
    if value.Arr? {
      var once := Merge(doc, key, value, override).value;
      var merged := Uniq(ListAt(doc, "scopes") + value.items);
      assert once == doc["scopes" := Arr(merged)];
      assert ListAt(once, "scopes") == merged;
      UniqAbsorbs(merged, value.items);
      UniqOfDistinct(merged);
      assert once["scopes" := Arr(merged)] == once;
    }
  }

  /** `eventCallbacks` is stored (first value wins unless overridden) only
      when the value is an array or an object. */
  lemma {:induction false} EventCallbacksObjectsOnly(doc: Doc, key: string, value: Value, override: bool)
    requires WellShaped(doc) && Lower(key) == "eventcallbacks"
    ensures !IsObject(value) ==> Merge(doc, key, value, override) == Ok(doc)
    ensures IsObject(value) ==>
      var after := Merge(doc, key, value, override).value;
      && Merge(doc, key, value, override).Ok?
      && after["eventCallbacks"] == (if "eventCallbacks" in doc && !override then doc["eventCallbacks"] else value)
      && OnlyChanged(doc, after, "eventCallbacks")
  {
  }

  /** `manifestVersion` given as text is stored as the number it starts
      with (NaN when it starts with no digit); other values are stored as
      they are. */
  lemma {:induction false} ManifestVersionStored(doc: Doc, key: string, value: Value, override: bool)
    requires WellShaped(doc) && Lower(key) == "manifestversion"
    ensures Merge(doc, key, value, override).Ok?
    ensures
      var after := Merge(doc, key, value, override).value;
      var version := if value.Str? then ParseFloat(value.s) else value;
      && after["manifestVersion"] == (if "manifestVersion" in doc && !override then doc["manifestVersion"] else version)
      && (value.Str? && ("manifestVersion" !in doc || override) ==> after["manifestVersion"].Num? || after["manifestVersion"].NaN?)
      && OnlyChanged(doc, after, "manifestVersion")
  {
  }

  /** The decimal text of a version number is stored as that number. */
  lemma {:induction false} ManifestVersionFromText(doc: Doc, key: string, n: nat)
    requires WellShaped(doc) && Lower(key) == "manifestversion"
    ensures Merge(doc, key, Str(NatToString(n)), true) == Ok(doc["manifestVersion" := Num(n)])
  {
    ParseIntOfNat(n);
  }

  /** `baseUri` is stored once, first value winning unless overridden. */
  lemma {:induction false} BaseUriStored(doc: Doc, key: string, value: Value, override: bool)
    requires WellShaped(doc) && Lower(key) == "baseuri"
    ensures Merge(doc, key, value, override).Ok?
    ensures
      var after := Merge(doc, key, value, override).value;
      && after["baseUri"] == (if "baseUri" in doc && !override then doc["baseUri"] else value)
      && OnlyChanged(doc, after, "baseUri")
  {
  }

  /** Keys of the vsixmanifest are ignored, whatever their case. */
  lemma {:induction false} ForeignKeyIgnored(doc: Doc, key: string, value: Value, override: bool)
    requires WellShaped(doc) && Lower(key) in ForeignKeys
    ensures Merge(doc, key, value, override) == Ok(doc)
  {
  }

  /** A key outside the table is dropped when it starts with "__" and is
      otherwise stored under its own, not lower-cased, name: first value
      wins unless overridden. */
  lemma {:induction false} OtherKeyStored(doc: Doc, key: string, value: Value, override: bool)
    requires WellShaped(doc) && PolicyOf(Lower(key)) == Other
    ensures IsInternal(key) ==> Merge(doc, key, value, override) == Ok(doc)
    ensures !IsInternal(key) ==>
      var after := Merge(doc, key, value, override).value;
      && Merge(doc, key, value, override).Ok?
      && key in after
      && after[key] == (if key in doc && !override then doc[key] else value)
      && OnlyChanged(doc, after, key)
  {
  }

  /** Dispatch ignores case: two spellings of a table key do the same. */
  lemma {:induction false} DispatchIgnoresCase(doc: Doc, k1: string, k2: string, value: Value, override: bool)
    requires WellShaped(doc) && Lower(k1) == Lower(k2) && PolicyOf(Lower(k1)) != Other
    ensures Merge(doc, k1, value, override) == Merge(doc, k2, value, override)
  {
  }

  /** `processKey` writes at most the property `Target(key)`. */
  lemma {:induction false} MergeTouchesOnlyTarget(doc: Doc, key: string, value: Value, override: bool)
    requires WellShaped(doc)
    ensures Merge(doc, key, value, override).Ok? ==>
      OnlyChanged(doc, Merge(doc, key, value, override).value, Target(key))
  {
    CanonicalNames();
    match PolicyOf(Lower(key))
    case Scopes =>
      if value.Arr? {
        UpdateChangesOnlyName(doc, "scopes", Arr(Uniq(ListAt(doc, "scopes") + value.items)));
      }
    case Contributions =>
      if value.Arr? {
        UpdateChangesOnlyName(doc, "contributions", Arr(ListAt(doc, "contributions") + value.items));
      }
    case ContributionTypes =>
      if value.Arr? {
        UpdateChangesOnlyName(doc, "contributionTypes", Arr(ListAt(doc, "contributionTypes") + value.items));
      }
    case _ =>
  }

  /** Storing one property leaves every other property as it was. */
  lemma {:induction false} UpdateChangesOnlyName(doc: Doc, name: string, v: Value)
    ensures OnlyChanged(doc, doc[name := v], name)
  {
  }

  /** `processKey` reads only the property `Target(key)`: two documents
      that agree there give results that agree there. */
  lemma {:induction false} MergeReadsOnlyTarget(d1: Doc, d2: Doc, key: string, value: Value, override: bool)
    requires WellShaped(d1) && WellShaped(d2)
    requires Target(key) in d1 <==> Target(key) in d2
    requires Target(key) in d1 ==> d1[Target(key)] == d2[Target(key)]
    ensures Merge(d1, key, value, override).Ok? == Merge(d2, key, value, override).Ok?
    ensures Merge(d1, key, value, override).Ok? ==>
      var t := Target(key);
      var r1 := Merge(d1, key, value, override).value;
      var r2 := Merge(d2, key, value, override).value;
      (t in r1 <==> t in r2) && (t in r1 ==> r1[t] == r2[t])
  {
    if PolicyOf(Lower(key)) in {Scopes, Contributions, ContributionTypes} {
      ListReadsOnlyTarget(d1, d2, key, value, override);
    } else {
      SingleReadsOnlyTarget(d1, d2, key, value, override);
    }
  }

  /** The list cases of `MergeReadsOnlyTarget`. */
  lemma {:induction false} ListReadsOnlyTarget(d1: Doc, d2: Doc, key: string, value: Value, override: bool)
    requires WellShaped(d1) && WellShaped(d2)
    requires PolicyOf(Lower(key)) in {Scopes, Contributions, ContributionTypes}
    requires Target(key) in d1 <==> Target(key) in d2
    requires Target(key) in d1 ==> d1[Target(key)] == d2[Target(key)]
    ensures Merge(d1, key, value, override).Ok? ==>
      var t := Target(key);
      var r1 := Merge(d1, key, value, override).value;
      var r2 := Merge(d2, key, value, override).value;
      (t in r1 <==> t in r2) && (t in r1 ==> r1[t] == r2[t])
  {
    CanonicalNames();
    var t := Target(key);
    assert ListAt(d1, t) == ListAt(d2, t);
    var r1, r2 := Merge(d1, key, value, override), Merge(d2, key, value, override);
    match PolicyOf(Lower(key))
    case Scopes =>
      assert r1 == Ok(if value.Arr? then d1[t := Arr(Uniq(ListAt(d1, t) + value.items))] else d1);
      assert r2 == Ok(if value.Arr? then d2[t := Arr(Uniq(ListAt(d2, t) + value.items))] else d2);
    case Contributions =>
      assert r1 == if value.Arr? then Ok(d1[t := Arr(ListAt(d1, t) + value.items)]) else Thrown(ContributionsNotArray);
      assert r2 == if value.Arr? then Ok(d2[t := Arr(ListAt(d2, t) + value.items)]) else Thrown(ContributionsNotArray);
    case ContributionTypes =>
      assert r1 == Ok(if value.Arr? then d1[t := Arr(ListAt(d1, t) + value.items)] else d1);
      assert r2 == Ok(if value.Arr? then d2[t := Arr(ListAt(d2, t) + value.items)] else d2);
  }

  /** The single-value and ignored cases of `MergeReadsOnlyTarget`. */
  lemma {:induction false} SingleReadsOnlyTarget(d1: Doc, d2: Doc, key: string, value: Value, override: bool)
    requires WellShaped(d1) && WellShaped(d2)
    requires PolicyOf(Lower(key)) !in {Scopes, Contributions, ContributionTypes}
    requires Target(key) in d1 <==> Target(key) in d2
    requires Target(key) in d1 ==> d1[Target(key)] == d2[Target(key)]
    ensures
      var t := Target(key);
      var r1 := Merge(d1, key, value, override).value;
      var r2 := Merge(d2, key, value, override).value;
      (t in r1 <==> t in r2) && (t in r1 ==> r1[t] == r2[t])
  {
    CanonicalNames();
    var t := Target(key);
    var r1, r2 := Merge(d1, key, value, override), Merge(d2, key, value, override);
    match PolicyOf(Lower(key))
    case EventCallbacks =>
      assert r1 == Ok(if IsObject(value) then SetSingle(d1, t, value, override) else d1);
      assert r2 == Ok(if IsObject(value) then SetSingle(d2, t, value, override) else d2);
    case ManifestVersion =>
      var version := if value.Str? then ParseFloat(value.s) else value;
      assert r1 == Ok(SetSingle(d1, t, version, override));
      assert r2 == Ok(SetSingle(d2, t, version, override));
    case BaseUri =>
      assert r1 == Ok(SetSingle(d1, t, value, override));
      assert r2 == Ok(SetSingle(d2, t, value, override));
    case Foreign =>
      assert r1 == Ok(d1) && r2 == Ok(d2);
    case Other =>
      assert r1 == Ok(if IsInternal(key) then d1 else SetSingle(d1, t, value, override));
      assert r2 == Ok(if IsInternal(key) then d2 else SetSingle(d2, t, value, override));
  }

  /** Keys whose lower-cased names differ are stored under different
      properties. */
  lemma {:induction false} TargetsDiffer(k1: string, k2: string)
    requires Lower(k1) != Lower(k2)
    ensures Target(k1) != Target(k2)
  {
    CanonicalNames();
  }

  /** Applies `processKey` after an earlier result, passing an exception on. */
  function MergeAfter(r: Result<Doc>, key: string, value: Value, override: bool): Result<Doc>
    requires r.Ok? ==> WellShaped(r.value)
  {
    match r
    case Thrown(e) => Thrown(e)
    case Ok(doc) => Merge(doc, key, value, override)
  }

  /** Two keys stored under different properties can be applied in either
      order with the same outcome. By `TargetsDiffer` this covers every
      pair of keys whose lower-cased names differ. */
  lemma {:induction false} MergeCommutes(doc: Doc, k1: string, v1: Value, o1: bool, k2: string, v2: Value, o2: bool)
    requires WellShaped(doc) && Target(k1) != Target(k2)
    ensures MergeAfter(Merge(doc, k1, v1, o1), k2, v2, o2) == MergeAfter(Merge(doc, k2, v2, o2), k1, v1, o1)
  {
    var m1, m2 := Merge(doc, k1, v1, o1), Merge(doc, k2, v2, o2);
    if m1.Thrown? {
      ThrowPassesOn(doc, k1, v1, o1, k2, v2, o2);
    } else if m2.Thrown? {
      ThrowPassesOn(doc, k2, v2, o2, k1, v1, o1);
    } else {
      var d1, d2 := m1.value, m2.value;
      MergeTouchesOnlyTarget(doc, k1, v1, o1);
      MergeReadsOnlyTarget(doc, d1, k2, v2, o2);
      MergeTouchesOnlyTarget(doc, k2, v2, o2);
      MergeReadsOnlyTarget(doc, d2, k1, v1, o1);
      var d12, d21 := Merge(d1, k2, v2, o2).value, Merge(d2, k1, v1, o1).value;
      MergeTouchesOnlyTarget(d1, k2, v2, o2);
      MergeTouchesOnlyTarget(d2, k1, v1, o1);
      DisjointUpdatesCommute(doc, d1, d2, d12, d21, Target(k1), Target(k2));
      assert MergeAfter(m1, k2, v2, o2) == Ok(d12);
      assert MergeAfter(m2, k1, v1, o1) == Ok(d21);
    }
  }

  /** A key that throws throws in either order. */
  lemma {:induction false} ThrowPassesOn(doc: Doc, k1: string, v1: Value, o1: bool, k2: string, v2: Value, o2: bool)
    requires WellShaped(doc)
    requires Merge(doc, k1, v1, o1).Thrown?
    ensures MergeAfter(Merge(doc, k1, v1, o1), k2, v2, o2) == Thrown(ContributionsNotArray)
    ensures MergeAfter(Merge(doc, k2, v2, o2), k1, v1, o1) == Thrown(ContributionsNotArray)
  {
    var m2 := Merge(doc, k2, v2, o2);
    if m2.Ok? {
      var r := Merge(m2.value, k1, v1, o1);
      assert r.Thrown?;
    }
  }

  /** Two spellings of `contributions` are appended in call order. */
  lemma {:induction false} ContributionsInCallOrder(doc: Doc, k1: string, v1: Value, o1: bool, k2: string, v2: Value, o2: bool)
    requires WellShaped(doc) && Lower(k1) == "contributions" && Lower(k2) == "contributions"
    requires v1.Arr? && v2.Arr?
    ensures MergeAfter(Merge(doc, k1, v1, o1), k2, v2, o2)
         == Ok(doc["contributions" := Arr(ListAt(doc, "contributions") + v1.items + v2.items)])
  {
    var d1 := doc["contributions" := Arr(ListAt(doc, "contributions") + v1.items)];
    assert Merge(doc, k1, v1, o1) == Ok(d1);
    assert ListAt(d1, "contributions") == ListAt(doc, "contributions") + v1.items;
    assert d1["contributions" := Arr(ListAt(d1, "contributions") + v2.items)]
        == doc["contributions" := Arr(ListAt(doc, "contributions") + v1.items + v2.items)];
  }

  /** Keys that differ only in case and share a list property do not
      commute: "contributions" [1] then "Contributions" [2] gives [1, 2],
      the other order [2, 1]. */
  lemma {:induction false} CaseVariantsDoNotCommute(k1: string, k2: string)
    requires k1 == "contributions" && k2 == "Contributions"
    ensures k1 != k2
    ensures MergeAfter(Merge(map[], k1, Arr([Num(1)]), false), k2, Arr([Num(2)]), false)
         != MergeAfter(Merge(map[], k2, Arr([Num(2)]), false), k1, Arr([Num(1)]), false)
  {
    LowerOfLowerCase(k1);
    LowerAt(k2, 0, 'C');
    assert Lower(k2) == "contributions";
    var doc: Doc := map[];
    ContributionsInCallOrder(doc, k1, Arr([Num(1)]), false, k2, Arr([Num(2)]), false);
    ContributionsInCallOrder(doc, k2, Arr([Num(2)]), false, k1, Arr([Num(1)]), false);
    var a := doc["contributions" := Arr([] + [Num(1)] + [Num(2)])];
    var b := doc["contributions" := Arr([] + [Num(2)] + [Num(1)])];
    assert a["contributions"].items[0] != b["contributions"].items[0];
  }

  /** Two updates of different properties, each made from the same
      document, give the same document in either order. */
  lemma {:induction false} DisjointUpdatesCommute(doc: Doc, d1: Doc, d2: Doc, d12: Doc, d21: Doc, t1: string, t2: string)
    requires t1 != t2
    requires OnlyChanged(doc, d1, t1) && OnlyChanged(doc, d2, t2)
    requires OnlyChanged(d1, d12, t2) && OnlyChanged(d2, d21, t1)
    requires (t2 in d12 <==> t2 in d2) && (t2 in d12 ==> d12[t2] == d2[t2])
    requires (t1 in d21 <==> t1 in d1) && (t1 in d21 ==> d21[t1] == d1[t1])
    ensures d12 == d21
  {
    forall k ensures (k in d12 <==> k in d21) && (k in d12 ==> d12[k] == d21[k]) {
    }
  }

  // ---------------------------------------------------------------------
  // finalize: the defaults

  /** After the defaults, the three list properties and the manifest version
      are set; truthy values are kept, falsy ones replaced by `[]` or 1;
      nothing else changes. */
  lemma {:induction false} DefaultsFilled(doc: Doc)
    ensures
      var r := WithDefaults(doc);
      && (forall name :: name in ["contributions", "scopes", "contributionTypes"] ==>
            name in r && r[name] == (if TruthyAt(doc, name) then doc[name] else Arr([])))
      && "manifestVersion" in r
      && r["manifestVersion"] == (if TruthyAt(doc, "manifestVersion") then doc["manifestVersion"] else Num(1))
      && (forall k :: k !in {"contributions", "scopes", "contributionTypes", "manifestVersion"} ==>
            (k in r <==> k in doc) && (k in doc ==> r[k] == doc[k]))
  {
  }

  /** Filling the defaults a second time changes nothing. */
  lemma {:induction false} DefaultsIdempotent(doc: Doc)
    ensures WithDefaults(WithDefaults(doc)) == WithDefaults(doc)
  {
    DefaultsFilled(doc);
    var r := WithDefaults(doc);
    assert TruthyAt(r, "contributions") && TruthyAt(r, "scopes") && TruthyAt(r, "contributionTypes");
    assert TruthyAt(r, "manifestVersion");
  }

  // ---------------------------------------------------------------------
  // getLocKeyPath

  lemma {:induction false} JoinEndsWithLast(parts: seq<string>)
    requires |parts| > 0 && parts[|parts| - 1] != ""
    ensures |Join(parts)| > 0
    ensures Join(parts)[|Join(parts)| - 1] == parts[|parts| - 1][|parts[|parts| - 1]| - 1]
  {
    if |parts| > 1 {
      JoinEndsWithLast(parts[1..]);
    }
  }

  /** The segments of `Join(parts)` are `parts` when every part is a
      non-empty, dot-free segment. */
  lemma {:induction false} SegmentsOfJoin(parts: seq<string>)
    requires forall k :: 0 <= k < |parts| ==> parts[k] != "" && '.' !in parts[k]
    ensures Segments(Join(parts)) == parts
  {
    if |parts| == 0 {
      assert Split("") == [""];
    } else {
      SplitJoin(parts);
      NonEmptyKeepsAll(parts);
    }
  }

  /** Short paths are returned as they are. */
  lemma {:induction false} LocKeyPathShort(doc: Doc, path: string)
    requires |Segments(path)| < 2
    ensures LocKeyPath(doc, path) == Ok(path)
  {
  }

  /** When the first segment names a list, the second parses as an index
      and the element there has a truthy id, the index is replaced by the
      id; the other segments stay. */
  lemma {:induction false} LocKeyPathRewrites(doc: Doc, path: string)
    requires |Segments(path)| >= 2
    requires IsIdentifiedList(Segments(path)[0]) && ParseInt(Segments(path)[1]).Some?
    requires IdentifierAt(doc, Segments(path)[0], ParseInt(Segments(path)[1]).value).Ok?
    requires IdentifierAt(doc, Segments(path)[0], ParseInt(Segments(path)[1]).value).value.Some?
    ensures
      var parts := Segments(path);
      var id := IdentifierAt(doc, parts[0], ParseInt(parts[1]).value).value.value;
      LocKeyPath(doc, path) == Ok(TrimEnd(parts[0] + "." + ToJsString(id) + "." + Join(parts[2..])))
  {
  }

  /** The rewritten key has the segments of the original with the index
      replaced by the id, provided the id is a single segment and the path
      does not end in whitespace. */
  lemma {:induction false} LocKeyPathSegments(doc: Doc, path: string)
    requires |Segments(path)| >= 2
    requires IsIdentifiedList(Segments(path)[0]) && ParseInt(Segments(path)[1]).Some?
    requires
      var parts := Segments(path);
      var id := IdentifierAt(doc, parts[0], ParseInt(parts[1]).value);
      id.Ok? && id.value.Some? && ToJsString(id.value.value) != "" && '.' !in ToJsString(id.value.value)
    requires
      var last := Segments(path)[|Segments(path)| - 1];
      |Segments(path)| == 2 || !IsWhitespace(last[|last| - 1])
    ensures
      var parts := Segments(path);
      var id := ToJsString(IdentifierAt(doc, parts[0], ParseInt(parts[1]).value).value.value);
      LocKeyPath(doc, path).Ok? && Segments(LocKeyPath(doc, path).value) == [parts[0], id] + parts[2..]
  {
    LocKeyPathRewrites(doc, path);
    var parts := Segments(path);
    var id := ToJsString(IdentifierAt(doc, parts[0], ParseInt(parts[1]).value).value.value);
    RewrittenSegments(parts[0], id, parts[2..]);
  }

  /** "head.id.rest…" has the segments head, id and rest, and no trailing
      whitespace to trim. */
  lemma {:induction false} RewrittenSegments(head: string, id: string, rest: seq<string>)
    requires head != "" && '.' !in head && id != "" && '.' !in id
    requires forall k :: 0 <= k < |rest| ==> rest[k] != "" && '.' !in rest[k]
    requires |rest| == 0 || !IsWhitespace(rest[|rest| - 1][|rest[|rest| - 1]| - 1])
    ensures TrimEnd(head + "." + id + "." + Join(rest)) == head + "." + id + "." + Join(rest)
    ensures Segments(head + "." + id + "." + Join(rest)) == [head, id] + rest
  {
    RewrittenNotTrimmed(head, id, rest);
    RewrittenSplits(head, id, rest);
  }

  /** The trimming half of `RewrittenSegments`. */
  lemma {:induction false} RewrittenNotTrimmed(head: string, id: string, rest: seq<string>)
    requires forall k :: 0 <= k < |rest| ==> rest[k] != ""
    requires |rest| == 0 || !IsWhitespace(rest[|rest| - 1][|rest[|rest| - 1]| - 1])
    ensures TrimEnd(head + "." + id + "." + Join(rest)) == head + "." + id + "." + Join(rest)
  {
    var s := head + "." + id + "." + Join(rest);
    if |rest| == 0 {
      assert s[|s| - 1] == '.';
    } else {
      JoinEndsWithLast(rest);
      assert s[|s| - 1] == Join(rest)[|Join(rest)| - 1];
    }
    TrimEndNoop(s);
  }

  /** The splitting half of `RewrittenSegments`. */
  lemma {:induction false} RewrittenSplits(head: string, id: string, rest: seq<string>)
    requires head != "" && '.' !in head && id != "" && '.' !in id
    requires forall k :: 0 <= k < |rest| ==> rest[k] != "" && '.' !in rest[k]
    ensures Segments(head + "." + id + "." + Join(rest)) == [head, id] + rest
  {
    var tail := id + "." + Join(rest);
    assert Segments(tail) == [id] + rest by {
      SegmentsConcat(id, Join(rest));
      SegmentsOfWord(id);
      SegmentsOfJoin(rest);
    }
    assert Segments(head + "." + tail) == [head] + Segments(tail) by {
      SegmentsConcat(head, tail);
      SegmentsOfWord(head);
    }
    assert head + "." + id + "." + Join(rest) == head + "." + tail;
    assert [head] + ([id] + rest) == [head, id] + rest;
  }

  /** Indexing an unset or null list throws: a path naming a list, with a
      numeric second segment, into a list that is unset or null. */
  lemma {:induction false} LocKeyPathThrows(doc: Doc, path: string)
    requires |Segments(path)| >= 2
    requires IsIdentifiedList(Segments(path)[0]) && ParseInt(Segments(path)[1]).Some?
    requires Segments(path)[0] !in doc || doc[Segments(path)[0]].Null?
    ensures LocKeyPath(doc, path).Thrown?
    ensures LocKeyPath(doc, path).reason == (if Segments(path)[0] in doc then NullIndexed else UndefinedIndexed)
  {
  }

  /** Every path that cannot be rewritten comes back unchanged: an unknown
      first segment, a second segment that is not a number, or an element
      that is missing, falsy or without a truthy id. */
  lemma {:induction false} LocKeyPathFallback(doc: Doc, path: string)
    requires |Segments(path)| >= 2
    requires
      var parts := Segments(path);
      var index := ParseInt(parts[1]);
      || !IsIdentifiedList(parts[0])
      || index.None?
      || IdentifierAt(doc, parts[0], index.value) == Ok(None)
    ensures LocKeyPath(doc, path) == Ok(path)
  {
  }

  /** The key path of element `i` of a list, built from its decimal index,
      is rewritten to the element's id when it has one, and is returned as
      it is when the list has no element `i`. */
  lemma {:induction false} LocKeyPathOfIndex(doc: Doc, list: string, i: nat, rest: string)
    requires IsIdentifiedList(list) && list in doc && doc[list].Arr?
    ensures
      var path := list + "." + NatToString(i) + "." + rest;
      var items := doc[list].items;
      && (i >= |items| ==> LocKeyPath(doc, path) == Ok(path))
      && (i < |items| && items[i].Obj? && "id" in items[i].fields && items[i].fields["id"].Str?
          && items[i].fields["id"].s != "" ==>
            LocKeyPath(doc, path) == Ok(TrimEnd(list + "." + items[i].fields["id"].s + "." + Join(Segments(rest)))))
  {
    var path := list + "." + NatToString(i) + "." + rest;
    assert path == list + "." + (NatToString(i) + "." + rest);
    SegmentsConcat(list, NatToString(i) + "." + rest);
    SegmentsConcat(NatToString(i), rest);
    SegmentsOfWord(list);
    SegmentsOfWord(NatToString(i));
    ParseIntOfNat(i);
    var parts := Segments(path);
    assert parts == [list, NatToString(i)] + Segments(rest);
    assert parts[0] == list && parts[1] == NatToString(i) && parts[2..] == Segments(rest);
    var items := doc[list].items;
    if i >= |items| {
      assert ElementAt(doc, list, i) == Ok(None);
      assert IdentifierAt(doc, list, i) == Ok(None);
    } else if items[i].Obj? && "id" in items[i].fields && items[i].fields["id"].Str? && items[i].fields["id"].s != "" {
      assert ElementAt(doc, list, i) == Ok(Some(items[i]));
      assert IdentifierAt(doc, list, i) == Ok(Some(items[i].fields["id"]));
    }
  }

  /** A document with two contributions, "A" and "B". */
  function TwoContributions(): Doc
  {
    map["contributions" := Arr([Obj(map["id" := Str("A")]), Obj(map["id" := Str("B")])])]
  }

  /** "contributions.1.name" names contribution "B". */
  lemma {:induction false} ExampleRewritten(doc: Doc, path: string, field: string)
    requires doc == TwoContributions() && field == "name"
    requires path == "contributions" + "." + NatToString(1) + "." + field
    ensures path == "contributions.1.name"
    ensures LocKeyPath(doc, path) == Ok("contributions" + "." + "B" + "." + field)
  {
    assert LocKeyPath(doc, path) == Ok("contributions" + "." + "B" + "." + field) by {
      IndexedWordRewritten(doc, "contributions", 1, "B", field);
    }
    assert NatToString(1) == "1";
  }

  /** The key path `list.i.word` names element `i` by its string id. */
  lemma {:induction false} IndexedWordRewritten(doc: Doc, list: string, i: nat, id: string, field: string)
    requires IsIdentifiedList(list) && list in doc && doc[list].Arr?
    requires i < |doc[list].items| && doc[list].items[i] == Obj(map["id" := Str(id)])
    requires id != "" && '.' !in id
    requires field != "" && '.' !in field && !IsWhitespace(field[|field| - 1])
    ensures LocKeyPath(doc, list + "." + NatToString(i) + "." + field) == Ok(list + "." + id + "." + field)
  {
    LocKeyPathOfIndex(doc, list, i, field);
    assert list != "" && '.' !in list by {
      DotFreeLists();
    }
    RewrittenWord(list, id, field);
  }

  /** The two identified list names are single segments. */
  lemma {:induction false} DotFreeLists()
    ensures "contributions" != "" && '.' !in "contributions"
    ensures "contributionTypes" != "" && '.' !in "contributionTypes"
  {
  }

  /** `head.id.` followed by the segments of a single word, trimmed, is
      `head.id.word`. */
  lemma {:induction false} RewrittenWord(head: string, id: string, word: string)
    requires head != "" && '.' !in head && id != "" && '.' !in id
    requires word != "" && '.' !in word && !IsWhitespace(word[|word| - 1])
    ensures TrimEnd(head + "." + id + "." + Join(Segments(word))) == head + "." + id + "." + word
  {
    SegmentsOfWord(word);
    assert Join([word]) == word;
    RewrittenSegments(head, id, [word]);
  }

  /** A path into a property that is not an identified list is left as it is. */
  lemma {:induction false} ExampleUnknownField(doc: Doc, path: string)
    requires doc == TwoContributions()
    requires path == "unknownField" + "." + ("0" + "." + "x")
    ensures LocKeyPath(doc, path) == Ok(path)
  {
    UnlistedPathKept(doc, "unknownField", "0", "x");
  }

  /** A three-segment path whose head is not an identified list is left as
      it is, whatever its second segment. */
  lemma {:induction false} UnlistedPathKept(doc: Doc, head: string, index: string, field: string)
    requires head != "" && '.' !in head && !IsIdentifiedList(head)
    requires index != "" && '.' !in index
    requires field != "" && '.' !in field
    ensures LocKeyPath(doc, head + "." + (index + "." + field)) == Ok(head + "." + (index + "." + field))
  {
    var path := head + "." + (index + "." + field);
    SegmentsConcat(head, index + "." + field);
    SegmentsConcat(index, field);
    SegmentsOfWord(head);
    SegmentsOfWord(index);
    SegmentsOfWord(field);
    LocKeyPathFallback(doc, path);
  }

  /** An index past the end of the list is left as it is. */
  lemma {:induction false} ExampleOutOfRange(path: string)
    requires path == "contributions" + "." + NatToString(5) + "." + "name"
    ensures path == "contributions.5.name"
    ensures LocKeyPath(TwoContributions(), path) == Ok(path)
  {
    assert NatToString(5) == "5";
    LocKeyPathOfIndex(TwoContributions(), "contributions", 5, "name");
  }

  /** A single segment is left as it is. */
  lemma {:induction false} ExampleSingleSegment(path: string)
    requires path == "scopes"
    ensures LocKeyPath(TwoContributions(), path) == Ok(path)
  {
    SegmentsOfWord(path);
  }

  /** The segments of the key path of element `i` of a list, and the id
      found there. */
  lemma {:induction false} IndexPathParts(doc: Doc, list: string, i: nat)
    requires IsIdentifiedList(list) && list in doc && doc[list].Arr?
    requires i < |doc[list].items| && doc[list].items[i].Obj?
    requires "id" in doc[list].items[i].fields && doc[list].items[i].fields["id"].Str?
    requires doc[list].items[i].fields["id"].s != ""
    ensures Segments(list + "." + NatToString(i)) == [list, NatToString(i)]
    ensures ParseInt(NatToString(i)) == Some(i)
    ensures IdentifierAt(doc, list, i) == Ok(Some(doc[list].items[i].fields["id"]))
  {
    SegmentsConcat(list, NatToString(i));
    SegmentsOfWord(list);
    SegmentsOfWord(NatToString(i));
    ParseIntOfNat(i);
    assert ElementAt(doc, list, i) == Ok(Some(doc[list].items[i]));
  }

  /** As written, a path that ends at the index keeps a trailing dot after
      the id. */
  lemma {:induction false} IndexOnlyPath(doc: Doc, list: string, i: nat)
    requires IsIdentifiedList(list) && list in doc && doc[list].Arr?
    requires i < |doc[list].items| && doc[list].items[i].Obj?
    requires "id" in doc[list].items[i].fields && doc[list].items[i].fields["id"].Str?
    requires doc[list].items[i].fields["id"].s != ""
    ensures
      var id := doc[list].items[i].fields["id"].s;
      LocKeyPath(doc, list + "." + NatToString(i)) == Ok(list + "." + id + ".")
  {
    var id := doc[list].items[i].fields["id"].s;
    var path := list + "." + NatToString(i);
    IndexPathParts(doc, list, i);
    var parts := Segments(path);
    assert parts[0] == list && parts[1] == NatToString(i) && parts[2..] == [];
    LocKeyPathRewrites(doc, path);
    var s := list + "." + id + "." + Join([]);
    assert s == list + "." + id + ".";
    assert s[|s| - 1] == '.';
    TrimEndNoop(s);
  }

  /** Corrected, the same path names the element by its id alone. */
  lemma {:induction false} IndexOnlyPathTrimmed(doc: Doc, list: string, i: nat)
    requires IsIdentifiedList(list) && list in doc && doc[list].Arr?
    requires i < |doc[list].items| && doc[list].items[i].Obj?
    requires "id" in doc[list].items[i].fields && doc[list].items[i].fields["id"].Str?
    requires doc[list].items[i].fields["id"].s != ""
    requires !IsWhitespace(doc[list].items[i].fields["id"].s[|doc[list].items[i].fields["id"].s| - 1])
    ensures
      var id := doc[list].items[i].fields["id"].s;
      LocKeyPathTrimmed(doc, list + "." + NatToString(i)) == Ok(list + "." + id)
  {
    var id := doc[list].items[i].fields["id"].s;
    var path := list + "." + NatToString(i);
    IndexPathParts(doc, list, i);
    var parts := Segments(path);
    assert parts[0] == list && parts[1] == NatToString(i) && parts[2..] == [];
    assert LocKeyPathTrimmed(doc, path) == Ok(TrimEnd(Join([list, ToJsString(Str(id))] + [])));
    assert [list, ToJsString(Str(id))] + [] == [list, id];
    assert Join([list, id]) == list + "." + id;
    TrimEndNoop(list + "." + id);
  }

  /** The example: "contributions.1" becomes "contributions.B." as written,
      and "contributions.B" once corrected. */
  lemma {:induction false} TrailingSeparatorKept(doc: Doc, path: string)
    requires doc == TwoContributions()
    requires path == "contributions" + "." + NatToString(1)
    ensures path == "contributions.1"
    ensures LocKeyPath(doc, path) == Ok("contributions.B.")
    ensures LocKeyPathTrimmed(doc, path) == Ok("contributions.B")
  {
    assert "contributions" in doc && doc["contributions"].Arr? by {
      assert doc["contributions"] == Arr([Obj(map["id" := Str("A")]), Obj(map["id" := Str("B")])]);
    }
    assert 1 < |doc["contributions"].items| && doc["contributions"].items[1] == Obj(map["id" := Str("B")]);
    IndexOnlyRewritten(doc, "contributions", 1, "B");
    ExampleSpellings();
  }

  /** The literal spellings of the paths in the example. */
  lemma ExampleSpellings()
    ensures NatToString(1) == "1"
    ensures "contributions" + "." + "1" == "contributions.1"
    ensures "contributions" + "." + "B" + "." == "contributions.B."
    ensures "contributions" + "." + "B" == "contributions.B"
  {
  }

  /** The index-only path of an element whose id is `id`, as written and corrected. */
  lemma {:induction false} IndexOnlyRewritten(doc: Doc, list: string, i: nat, id: string)
    requires IsIdentifiedList(list) && list in doc && doc[list].Arr?
    requires i < |doc[list].items| && doc[list].items[i] == Obj(map["id" := Str(id)])
    requires id != "" && !IsWhitespace(id[|id| - 1])
    ensures LocKeyPath(doc, list + "." + NatToString(i)) == Ok(list + "." + id + ".")
    ensures LocKeyPathTrimmed(doc, list + "." + NatToString(i)) == Ok(list + "." + id)
  {
    var e := doc[list].items[i];
    assert e.Obj? && "id" in e.fields && e.fields["id"] == Str(id);
    IndexOnlyPath(doc, list, i);
    IndexOnlyPathTrimmed(doc, list, i);
  }

  /** With the trailing separator dropped, the rewritten key has exactly the
      original segments with the index replaced by the id and never ends
      in a dot; "contributions.1" becomes "contributions.B". */
  lemma {:induction false} LocKeyPathTrimmedSegments(doc: Doc, path: string)
    requires |Segments(path)| >= 2
    requires IsIdentifiedList(Segments(path)[0]) && ParseInt(Segments(path)[1]).Some?
    requires
      var parts := Segments(path);
      var id := IdentifierAt(doc, parts[0], ParseInt(parts[1]).value);
      id.Ok? && id.value.Some? && ToJsString(id.value.value) != "" && '.' !in ToJsString(id.value.value)
      && !IsWhitespace(ToJsString(id.value.value)[|ToJsString(id.value.value)| - 1])
    requires
      var last := Segments(path)[|Segments(path)| - 1];
      !IsWhitespace(last[|last| - 1])
    ensures
      var parts := Segments(path);
      var id := ToJsString(IdentifierAt(doc, parts[0], ParseInt(parts[1]).value).value.value);
      var r := LocKeyPathTrimmed(doc, path);
      && r.Ok?
      && Segments(r.value) == [parts[0], id] + parts[2..]
      && r.value[|r.value| - 1] != '.'
  {
    var parts := Segments(path);
    var id := ToJsString(IdentifierAt(doc, parts[0], ParseInt(parts[1]).value).value.value);
    var last := parts[|parts| - 1];
    assert !IsWhitespace(last[|last| - 1]);
    LocKeyPathTrimmedRewrites(doc, path);
    IdReplacesIndex(parts, id);
  }

  /** The corrected rewrite, for a list name, a numeric second segment and an
      element with a truthy id: the trimmed join of `list`, the id and the
      rest. */
  lemma {:induction false} LocKeyPathTrimmedRewrites(doc: Doc, path: string)
    requires |Segments(path)| >= 2
    requires IsIdentifiedList(Segments(path)[0]) && ParseInt(Segments(path)[1]).Some?
    requires IdentifierAt(doc, Segments(path)[0], ParseInt(Segments(path)[1]).value).Ok?
    requires IdentifierAt(doc, Segments(path)[0], ParseInt(Segments(path)[1]).value).value.Some?
    ensures
      var parts := Segments(path);
      var id := IdentifierAt(doc, parts[0], ParseInt(parts[1]).value).value.value;
      LocKeyPathTrimmed(doc, path) == Ok(TrimEnd(Join([parts[0], ToJsString(id)] + parts[2..])))
  {
  }

  /** The segments of a path with the index (the second segment) replaced by
      a dot-free id join to a key that `trimEnd` leaves alone and that splits
      back into those segments. */
  lemma {:induction false} IdReplacesIndex(parts: seq<string>, id: string)
    requires |parts| >= 2
    requires forall k :: 0 <= k < |parts| ==> parts[k] != "" && '.' !in parts[k]
    requires id != "" && '.' !in id && !IsWhitespace(id[|id| - 1])
    requires !IsWhitespace(parts[|parts| - 1][|parts[|parts| - 1]| - 1])
    ensures
      var all := [parts[0], id] + parts[2..];
      && TrimEnd(Join(all)) == Join(all)
      && Segments(Join(all)) == all
      && Join(all)[|Join(all)| - 1] != '.'
  {
    var all := [parts[0], id] + parts[2..];
    forall k | 0 <= k < |all| ensures all[k] != "" && '.' !in all[k] {
      if k >= 2 {
        assert all[k] == parts[k];
      }
    }
    assert all[|all| - 1] == if |parts| == 2 then id else parts[|parts| - 1];
    JoinedSegments(all);
  }

  /** Dot-free, non-empty segments whose last character is not whitespace
      join to a key that `trimEnd` leaves alone, that splits back into the
      segments and that does not end in a dot. */
  lemma {:induction false} JoinedSegments(all: seq<string>)
    requires |all| > 0
    requires forall k :: 0 <= k < |all| ==> all[k] != "" && '.' !in all[k]
    requires !IsWhitespace(all[|all| - 1][|all[|all| - 1]| - 1])
    ensures TrimEnd(Join(all)) == Join(all)
    ensures Segments(Join(all)) == all
    ensures Join(all)[|Join(all)| - 1] != '.'
  {
    JoinEndsWithLast(all);
    TrimEndNoop(Join(all));
    SegmentsOfJoin(all);
  }

  /** `Join` of at least three parts puts the first two in front of the
      rest. */
  lemma {:induction false} JoinTwoThenRest(a: string, b: string, rest: seq<string>)
    requires |rest| > 0
    ensures Join([a, b] + rest) == a + "." + b + "." + Join(rest)
  {
    var tl := [b] + rest;
    assert Join(tl) == b + "." + Join(rest) by {
      assert tl[0] == b && tl[1..] == rest;
    }
    assert Join([a, b] + rest) == a + "." + Join(tl) by {
      assert ([a, b] + rest)[0] == a && ([a, b] + rest)[1..] == tl;
    }
  }

  /** The correction changes only paths that end at the index: whenever a
      segment follows the index, or there is no index at all, both
      rewrites agree. */
  lemma {:induction false} LocKeyPathTrimmedAgrees(doc: Doc, path: string)
    requires |Segments(path)| != 2
    ensures LocKeyPathTrimmed(doc, path) == LocKeyPath(doc, path)
  {
    var parts := Segments(path);
    if |parts| > 2 {
      var index := ParseInt(parts[1]);
      if IsIdentifiedList(parts[0]) && index.Some? {
        var found := IdentifierAt(doc, parts[0], index.value);
        if found.Ok? && found.value.Some? {
          JoinTwoThenRest(parts[0], ToJsString(found.value.value), parts[2..]);
        }
      }
    }
  }
}
