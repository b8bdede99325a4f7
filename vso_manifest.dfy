/** The builder of `extension.vsomanifest`, the Visual Studio Services
    manifest: how one top-level key of an author's manifest fragment is folded
    into the document, the defaults filled in when the document is finished,
    and the rewriting of localization key paths from array positions to
    contribution ids. */
module VsoManifest {
  import opened JsValue
  import opened JsStrings

  /** How a top-level key is folded into the document, decided by its
      lower-cased name. */
  datatype Policy =
    | EventCallbacks     // stored once, only when the value is an object
    | ManifestVersion    // stored once, text converted to a number
    | Scopes             // merged without duplicates
    | BaseUri            // stored once
    | Contributions      // appended; anything but an array is an error
    | ContributionTypes  // appended; anything but an array is ignored
    | Foreign            // a key of the other (vsixmanifest) manifest: ignored
    | Other              // any other key: stored once under its own name

  /** The keys that belong to the vsixmanifest and are skipped here. */
  const ForeignKeys: set<string> := {
    "namespace", "extensionid", "id", "version", "name", "description", "icons",
    "screenshots", "details", "targets", "links", "branding", "public", "publisher",
    "releasenotes", "tags", "flags", "vsoflags", "galleryflags", "categories", "files",
    "githubflavoredmarkdown", "showpricingcalculator"
  }

  /** The lower-cased names with a case of their own in the table. */
  const CaseLabels: set<string> := {
    "eventcallbacks", "manifestversion", "scopes", "baseuri", "contributions", "contributiontypes"
  }

  /** The policy for a lower-cased key name. */
  function PolicyOf(name: string): (p: Policy)
    ensures p == Foreign <==> name in ForeignKeys
    ensures p == Other <==> name !in CaseLabels && name !in ForeignKeys
    ensures p == Contributions <==> name == "contributions"
  {
    if name == "eventcallbacks" then EventCallbacks
    else if name == "manifestversion" then ManifestVersion
    else if name == "scopes" then Scopes
    else if name == "baseuri" then BaseUri
    else if name == "contributions" then Contributions
    else if name == "contributiontypes" then ContributionTypes
    else if name in ForeignKeys then Foreign
    else Other
  }

  /** Keys starting with "__" carry internal bookkeeping, never a manifest
      property. */
  predicate IsInternal(key: string)
    ensures IsInternal(key) <==> |key| >= 2 && key[0] == '_' && key[1] == '_'
  {
    |key| >= 2 && key[..2] == "__"
  }

  /** The property a key is stored under: the canonical name of its policy,
      or the key itself as given (not lower-cased). */
  function Target(key: string): string
  {
    match PolicyOf(Lower(key))
    case EventCallbacks => "eventCallbacks"
    case ManifestVersion => "manifestVersion"
    case Scopes => "scopes"
    case BaseUri => "baseUri"
    case Contributions => "contributions"
    case ContributionTypes => "contributionTypes"
    case _ => key
  }

  const ContributionsNotArray := "\"contributions\" must be an array of Contribution objects."

  predicate NoDuplicates(s: seq<Value>)
  {
    forall i, j :: 0 <= i < j < |s| ==> s[i] != s[j]
  }

  /** The shape the builder keeps: the list properties are arrays whenever
      present, and the scopes hold no duplicates. */
  predicate WellShaped(doc: Doc)
  {
    && ("contributions" in doc ==> doc["contributions"].Arr?)
    && ("contributionTypes" in doc ==> doc["contributionTypes"].Arr?)
    && ("scopes" in doc ==> doc["scopes"].Arr? && NoDuplicates(doc["scopes"].items))
  }

  /** The elements of a list property, `[]` when it is not set. */
  function ListAt(doc: Doc, name: string): seq<Value>
  {
    if name in doc && doc[name].Arr? then doc[name].items else []
  }

  /** The base class's single-value setter: the value is stored when the
      property is unset or `override` is given; otherwise the first value
      stays. No other property changes. */
  function SetSingle(doc: Doc, name: string, value: Value, override: bool): (r: Doc)
    ensures name in r
    ensures r[name] == if name in doc && !override then doc[name] else value
    ensures forall k :: k != name ==> (k in r <==> k in doc)
    ensures forall k :: k != name && k in doc ==> r[k] == doc[k]
  {
    if name !in doc || override then doc[name := value] else doc
  }

  /** The index of the first occurrence of `x` in `s`. */
  function FirstIndex(s: seq<Value>, x: Value): (k: nat)
    requires x in s
    ensures k < |s| && s[k] == x
    ensures forall j :: 0 <= j < k ==> s[j] != x
  {
    if s[0] == x then 0 else 1 + FirstIndex(s[1..], x)
  }

  /** lodash `_.uniq`: each element once, at the place it first occurs. */
  function Uniq(s: seq<Value>): (r: seq<Value>)
    ensures NoDuplicates(r)
    ensures forall x :: x in r <==> x in s
  {
    if |s| == 0 then []
    else
      var p := Uniq(s[..|s| - 1]);
      var x := s[|s| - 1];
      assert s == s[..|s| - 1] + [x];
      if x in p then p else p + [x]
  }

  /** `processKey(key, value, override)` as a function of the document: the
      new document, or the exception it throws. */
  function Merge(doc: Doc, key: string, value: Value, override: bool): (r: Result<Doc>)
    requires WellShaped(doc)
    ensures r.Ok? ==> WellShaped(r.value)
    ensures r.Thrown? <==> PolicyOf(Lower(key)) == Contributions && !value.Arr?
    ensures r.Thrown? ==> r.reason == ContributionsNotArray
  {
    CanonicalNames();
    match PolicyOf(Lower(key))
    case EventCallbacks =>
      Ok(if IsObject(value) then SetSingle(doc, "eventCallbacks", value, override) else doc)
    case ManifestVersion =>
      var version := if value.Str? then ParseFloat(value.s) else value;
      Ok(SetSingle(doc, "manifestVersion", version, override))
    case Scopes =>
      Ok(if value.Arr? then doc["scopes" := Arr(Uniq(ListAt(doc, "scopes") + value.items))] else doc)
    case BaseUri =>
      Ok(SetSingle(doc, "baseUri", value, override))
    case Contributions =>
      if value.Arr? then Ok(doc["contributions" := Arr(ListAt(doc, "contributions") + value.items)])
      else Thrown(ContributionsNotArray)
    case ContributionTypes =>
      Ok(if value.Arr? then doc["contributionTypes" := Arr(ListAt(doc, "contributionTypes") + value.items)] else doc)
    case Foreign =>
      Ok(doc)
    case Other =>
      Ok(if IsInternal(key) then doc else SetSingle(doc, key, value, override))
  }

  /** The canonical property names are distinct from every key that falls
      through to the generic setter. */
  lemma CanonicalNames()
    ensures Lower("eventCallbacks") == "eventcallbacks"
    ensures Lower("manifestVersion") == "manifestversion"
    ensures Lower("scopes") == "scopes"
    ensures Lower("baseUri") == "baseuri"
    ensures Lower("contributions") == "contributions"
    ensures Lower("contributionTypes") == "contributiontypes"
  {
    LowerAt("eventCallbacks", 5, 'C');
    LowerAt("manifestVersion", 8, 'V');
    LowerOfLowerCase("scopes");
    LowerAt("baseUri", 4, 'U');
    LowerOfLowerCase("contributions");
    LowerAt("contributionTypes", 12, 'T');
  }

  /** Lower-casing a name whose only capital is at position `i`. */
  lemma LowerAt(s: string, i: nat, c: char)
    requires i < |s| && s[i] == c && IsUpper(c)
    requires forall j :: 0 <= j < |s| && j != i ==> !IsUpper(s[j])
    ensures Lower(s) == s[i := LowerChar(c)]
  {
  }

  /** `DefaultTo(doc, name, v)` sets `name` to `v` when it is falsy. */
  function DefaultTo(doc: Doc, name: string, v: Value): (r: Doc)
    ensures name in r && r[name] == (if TruthyAt(doc, name) then doc[name] else v)
    ensures forall k :: k != name ==> (k in r <==> k in doc)
    ensures forall k :: k != name && k in doc ==> r[k] == doc[k]
  {
    if TruthyAt(doc, name) then doc else doc[name := v]
  }

  /** The defaulting block of `finalize`: afterwards the three list
      properties and the manifest version are all set and truthy. */
  function WithDefaults(doc: Doc): (r: Doc)
    ensures TruthyAt(r, "contributions") && TruthyAt(r, "scopes")
    ensures TruthyAt(r, "contributionTypes") && TruthyAt(r, "manifestVersion")
  {
    var d1 := DefaultTo(doc, "contributions", Arr([]));
    var d2 := DefaultTo(d1, "scopes", Arr([]));
    var d3 := DefaultTo(d2, "contributionTypes", Arr([]));
    DefaultTo(d3, "manifestVersion", Num(1))
  }

  /** The TypeError raised by indexing `undefined` or `null`. */
  const UndefinedIndexed := "Cannot read properties of undefined"
  const NullIndexed := "Cannot read properties of null"

  /** `this.data[name][index]`: an array element, an object property named
      by the index's digits, or a one-character string; `None` for
      `undefined`. Indexing an undefined or null property throws. */
  function ElementAt(doc: Doc, name: string, index: nat): (r: Result<Option<Value>>)
    ensures r.Thrown? <==> name !in doc || doc[name].Null?
    ensures r.Thrown? ==> r.reason == (if name in doc then NullIndexed else UndefinedIndexed)
    ensures name in doc && doc[name].Arr? ==>
      r.Ok? && (r.value.Some? <==> index < |doc[name].items|)
      && (r.value.Some? ==> r.value.value == doc[name].items[index])
  {
    if name !in doc then Thrown(UndefinedIndexed)
    else if doc[name].Null? then Thrown(NullIndexed)
    else
      match doc[name]
      case Arr(items) => Ok(if index < |items| then Some(items[index]) else None)
      case Obj(fields) => Ok(if NatToString(index) in fields then Some(fields[NatToString(index)]) else None)
      case Str(s) => Ok(if index < |s| then Some(Str([s[index]])) else None)
      case _ => Ok(None)
  }

  /** The `id` of `this.data[name][index]` when the element and its id are
      both truthy; `None` otherwise. Only objects carry an `id`. */
  function IdentifierAt(doc: Doc, name: string, index: nat): (r: Result<Option<Value>>)
    ensures r.Thrown? <==> ElementAt(doc, name, index).Thrown?
    ensures r.Ok? && r.value.Some? ==>
      var elem := ElementAt(doc, name, index).value;
      && elem.Some? && elem.value.Obj? && "id" in elem.value.fields
      && r.value.value == elem.value.fields["id"] && Truthy(r.value.value)
  {
    match ElementAt(doc, name, index)
    case Thrown(e) => Thrown(e)
    case Ok(elem) =>
      Ok(if elem.Some? && Truthy(elem.value) && elem.value.Obj? && "id" in elem.value.fields
            && Truthy(elem.value.fields["id"])
         then Some(elem.value.fields["id"]) else None)
  }

  /** The list properties whose elements are named by their id in a
      localization key. */
  predicate IsIdentifiedList(name: string)
  {
    name == "contributions" || name == "contributionTypes"
  }

  /** `getLocKeyPath(path)`: "contributions.3.name" becomes
      "contributions.<id>.name" (likewise for contributionTypes); any path
      that cannot be rewritten is returned as it is. */
  function LocKeyPath(doc: Doc, path: string): (r: Result<string>)
    ensures |Segments(path)| < 2 ==> r == Ok(path)
    ensures r.Thrown? ==> var parts := Segments(path);
      IsIdentifiedList(parts[0]) && (parts[0] !in doc || doc[parts[0]].Null?)
  {
    var parts := Segments(path);
    if |parts| < 2 then Ok(path)
    else
      var index := ParseInt(parts[1]);
      if IsIdentifiedList(parts[0]) && index.Some? then
        match IdentifierAt(doc, parts[0], index.value)
        case Thrown(e) => Thrown(e)
        case Ok(None) => Ok(path)
        case Ok(Some(id)) => Ok(TrimEnd(parts[0] + "." + ToJsString(id) + "." + Join(parts[2..])))
      else Ok(path)
  }

  /** `getLocKeyPath` as evidently intended: when nothing follows the index,
      no separator is left after the id. */
  function LocKeyPathTrimmed(doc: Doc, path: string): (r: Result<string>)
    ensures |Segments(path)| < 2 ==> r == Ok(path)
  {
    var parts := Segments(path);
    if |parts| < 2 then Ok(path)
    else
      var index := ParseInt(parts[1]);
      if IsIdentifiedList(parts[0]) && index.Some? then
        match IdentifierAt(doc, parts[0], index.value)
        case Thrown(e) => Thrown(e)
        case Ok(None) => Ok(path)
        case Ok(Some(id)) => Ok(TrimEnd(Join([parts[0], ToJsString(id)] + parts[2..])))
      else Ok(path)
  }

  /** The builder of one vsomanifest document. */
  class VsoManifestBuilder {
    /** `this.data`, the document under construction. */
    var data: Doc

    static const ManifestType := "Microsoft.VisualStudio.Services.Manifest"

    ghost predicate Valid()
      reads this
    {
      WellShaped(data)
    }

    /** The base class starts from an empty document. */
    constructor ()
      ensures Valid() && data == map[]
    {
      data := map[];
    }

    /** The manifest's file name in the package: at the package root,
        with the vsomanifest extension. */
    function GetPath(): (p: string)
      ensures '/' !in p
      ensures |p| > 12 && p[|p| - 12..] == ".vsomanifest"
    {
      "extension.vsomanifest"
    }

    /** The type name this builder reports, the class's manifest type. */
    function GetType(): (t: string)
      ensures t == ManifestType
    {
      ManifestType
    }

    /** The document is served as JSON. */
    function GetContentType(): (t: string)
      ensures t == "application/json"
    {
      "application/json"
    }

    /** The base class's `singleValueProperty`, on a flat key. It is
        protected there and never called on a list property. */
    method SingleValueProperty(name: string, value: Value, override: bool)
      requires Valid() && name !in {"contributions", "contributionTypes", "scopes"}
      modifies this
      ensures Valid()
      ensures data == SetSingle(old(data), name, value, override)
    {
      if name !in data || override {
        data := data[name := value];
      }
    }

    /** `processKey`: folds one key of a fragment into the document, or
        throws and leaves the document as it was. */
    method ProcessKey(key: string, value: Value, override: bool) returns (c: Completion)
      requires Valid()
      modifies this
      ensures Valid()
      ensures c.Normal? <==> Merge(old(data), key, value, override).Ok?
      ensures c.Normal? ==> data == Merge(old(data), key, value, override).value
      ensures c.Throw? ==> c.reason == ContributionsNotArray && data == old(data)
    {
      CanonicalNames();
      ghost var before := data;
      ghost var merged := Merge(data, key, value, override);
      c := Normal;
      var name := Lower(key);
      if name == "eventcallbacks" {
        if IsObject(value) {
          SingleValueProperty("eventCallbacks", value, override);
        }
        assert merged == Ok(data);
      } else if name == "manifestversion" {
        var version := value;
        if version.Str? {
          version := ParseFloat(version.s);
        }
        SingleValueProperty("manifestVersion", version, override);
        assert merged == Ok(data);
      } else if name == "scopes" {
        if value.Arr? {
          if !TruthyAt(data, "scopes") {
            data := data["scopes" := Arr([])];
          }
          assert data["scopes"].items == ListAt(before, "scopes");
          data := data["scopes" := Arr(Uniq(data["scopes"].items + value.items))];
          assert data == before["scopes" := data["scopes"]];
        }
        assert merged == Ok(data);
      } else if name == "baseuri" {
        SingleValueProperty("baseUri", value, override);
        assert merged == Ok(data);
      } else if name == "contributions" {
        if value.Arr? {
          if !TruthyAt(data, "contributions") {
            data := data["contributions" := Arr([])];
          }
          assert data["contributions"].items == ListAt(before, "contributions");
          data := data["contributions" := Arr(data["contributions"].items + value.items)];
          assert data == before["contributions" := data["contributions"]];
          assert merged == Ok(data);
        } else {
          c := Throw(ContributionsNotArray);
          assert merged.Thrown?;
        }
      } else if name == "contributiontypes" {
        if value.Arr? {
          if !TruthyAt(data, "contributionTypes") {
            data := data["contributionTypes" := Arr([])];
          }
          assert data["contributionTypes"].items == ListAt(before, "contributionTypes");
          data := data["contributionTypes" := Arr(data["contributionTypes"].items + value.items)];
          assert data == before["contributionTypes" := data["contributionTypes"]];
        }
        assert merged == Ok(data);
      } else if name in ForeignKeys {
        // a vsixmanifest key: nothing to do
        assert merged == Ok(data);
      } else {
        if !IsInternal(key) {
          SingleValueProperty(key, value, override);
        }
        assert merged == Ok(data);
      }
    }

    /** The defaulting block of `finalize`: unset or falsy list properties
        become `[]`, a falsy manifest version becomes 1. */
    method FillDefaults()
      requires Valid()
      modifies this
      ensures Valid()
      ensures data == WithDefaults(old(data))
    {
      if !TruthyAt(data, "contributions") {
        data := data["contributions" := Arr([])];
      }
      if !TruthyAt(data, "scopes") {
        data := data["scopes" := Arr([])];
      }
      if !TruthyAt(data, "contributionTypes") {
        data := data["contributionTypes" := Arr([])];
      }
      if !TruthyAt(data, "manifestVersion") {
        data := data["manifestVersion" := Num(1)];
      }
    }
  }
}
