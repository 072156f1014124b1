/** Record translation of the eIDSR-to-Zebra synchroniser: rewriting an
    origin organisation unit to the destination one, and rewriting a list of
    {attribute, value} pairs (filtering by allowed ids, renaming the
    attribute, rewriting coded values through the option table). */
module Translation {

  datatype Option<T> = None | Some(value: T)

  /** One {attribute, value} pair of a tracked entity or of an enrollment. */
  datatype Attribute = Attribute(attribute: string, value: string)

  /** One value of the `options` table; either of its keys may be missing. */
  datatype OptionEntry = OptionEntry(code: Option<string>, mappedCode: Option<string>)

  /** The mapping dictionary. A table missing from the file is an empty map.
      `options` holds the values of the options object in their file order. */
  datatype Mappings = Mappings(
    organisationUnits: map<string, string>,        // origin OU id -> mappedId (a path)
    trackerPrograms: map<string, string>,           // origin program id -> mappedId
    trackedEntityAttributesToTei: map<string, string>,  // origin attribute id -> mappedId
    options: seq<OptionEntry>)

  // ---------------------------------------------------------------------
  // Python's str.split(sep) and the last path segment
  // ---------------------------------------------------------------------

  /** The parts of `s` between occurrences of `sep`, as str.split(sep) gives them. */
  function Split(s: string, sep: char): (parts: seq<string>)
    ensures |parts| >= 1
  {
    if s == [] then [[]]
    else
      var rest := Split(s[1..], sep);
      if s[0] == sep then [[]] + rest
      else [[s[0]] + rest[0]] + rest[1..]
  }

  /** sep.join(parts): the inverse of Split. */
  function Join(parts: seq<string>, sep: char): string
    requires |parts| >= 1
  {
    if |parts| == 1 then parts[0] else parts[0] + [sep] + Join(parts[1..], sep)
  }

  /** Splitting loses nothing (joining the parts gives the string back) and
      no part contains the separator. */
  lemma {:induction false} SplitJoin(s: string, sep: char)
    ensures Join(Split(s, sep), sep) == s
    ensures forall i :: 0 <= i < |Split(s, sep)| ==> sep !in Split(s, sep)[i]
  {
    if s != [] {
      var rest := Split(s[1..], sep);
      SplitJoin(s[1..], sep);
      var parts := Split(s, sep);
      assert s == [s[0]] + s[1..];
      if s[0] == sep {
        assert parts == [[]] + rest;
        assert parts[1..] == rest;
      } else {
        assert parts == [[s[0]] + rest[0]] + rest[1..];
        if |rest| > 1 {
          assert parts[1..] == rest[1..];
        }
        forall i | 0 <= i < |parts| ensures sep !in parts[i] {
          if i > 0 { assert parts[i] == rest[i]; }
        }
      }
    }
  }

  /** Joining splits off the last part after the last separator. */
  lemma {:induction false} JoinLast(parts: seq<string>, sep: char)
    requires |parts| >= 2
    ensures Join(parts, sep) == Join(parts[..|parts| - 1], sep) + [sep] + parts[|parts| - 1]
  {
    if |parts| > 2 {
      JoinLast(parts[1..], sep);
      assert parts[1..][..|parts| - 2] == parts[..|parts| - 1][1..];
    }
  }

  /** The last part of str.split(sep) is the longest suffix without `sep`:
      it is a suffix, it holds no `sep`, it is the whole string when the string
      holds no `sep`, and otherwise it is preceded by a `sep`. */
  lemma LastPartIsFinalSegment(s: string, sep: char)
    ensures var parts := Split(s, sep); var r := parts[|parts| - 1];
      && sep !in r
      && |r| <= |s| && s[|s| - |r|..] == r
      && (sep !in s ==> r == s)
      && (sep in s ==> |r| < |s| && s[|s| - |r| - 1] == sep)
  {
    var parts := Split(s, sep);
    SplitJoin(s, sep);
    var r := parts[|parts| - 1];
    if |parts| >= 2 {
      JoinLast(parts, sep);
      var head := Join(parts[..|parts| - 1], sep);
      assert s == head + [sep] + r;
      assert s[|head|] == sep;
      assert s[|s| - |r|..] == r;
    }
  }

  /** get_mapped_ou: the last `/` segment of the mapped path, or None when
      the origin OU is not mapped. */
  function GetMappedOu(sourceOu: string, m: Mappings): Option<string>
  {
    if sourceOu in m.organisationUnits then
      var parts := Split(m.organisationUnits[sourceOu], '/');
      Some(parts[|parts| - 1])
    else None
  }

  /** GetMappedOu is None exactly for unmapped OUs; otherwise it is the final
      `/`-separated segment of the mapped path. */
  lemma MappedOuIsLastSegment(sourceOu: string, m: Mappings)
    ensures GetMappedOu(sourceOu, m).None? <==> sourceOu !in m.organisationUnits
    ensures sourceOu in m.organisationUnits ==>
      var id := m.organisationUnits[sourceOu];
      var r := GetMappedOu(sourceOu, m).value;
      && '/' !in r
      && |r| <= |id| && id[|id| - |r|..] == r
      && ('/' !in id ==> r == id)
      && ('/' in id ==> |r| < |id| && id[|id| - |r| - 1] == '/')
  {
    if sourceOu in m.organisationUnits {
      LastPartIsFinalSegment(m.organisationUnits[sourceOu], '/');
    }
  }

  // ---------------------------------------------------------------------
  // The code -> mappedCode table and value rewriting
  // ---------------------------------------------------------------------

  /** An option that takes part in the table, for code `c`. */
  predicate Defines(o: OptionEntry, c: string)
  {
    o.code == Some(c) && o.mappedCode.Some?
  }

  /** The `code_lookup` dictionary comprehension: later options overwrite
      earlier ones with the same code; options missing a key are skipped. */
  function CodeLookup(options: seq<OptionEntry>): map<string, string>
  {
    if options == [] then map[]
    else
      var prior := CodeLookup(options[..|options| - 1]);
      var o := options[|options| - 1];
      if o.code.Some? && o.mappedCode.Some? then prior[o.code.value := o.mappedCode.value]
      else prior
  }

  /** A code is in the table iff some usable option has it, and then its
      entry is the mappedCode of the LAST usable option with that code. */
  lemma {:induction false} CodeLookupLastWins(options: seq<OptionEntry>, c: string)
    ensures c in CodeLookup(options) <==> exists i :: 0 <= i < |options| && Defines(options[i], c)
    ensures forall i :: 0 <= i < |options| && Defines(options[i], c) &&
                        (forall j :: i < j < |options| ==> !Defines(options[j], c)) ==>
                        c in CodeLookup(options) && CodeLookup(options)[c] == options[i].mappedCode.value
  {
    if options != [] {
      var n := |options| - 1;
      var prefix := options[..n];
      CodeLookupLastWins(prefix, c);
      assert forall i :: 0 <= i < n ==> prefix[i] == options[i];
      if Defines(options[n], c) {
        assert c in CodeLookup(options);
      }
    }
  }

  /** `code_lookup.get(val, val)`. */
  function RewriteValue(lookup: map<string, string>, v: string): string
  {
    if v in lookup then lookup[v] else v
  }

  /** A value equal to a usable option's code becomes the mappedCode of the
      last such option; any other value passes through unchanged. */
  lemma ValueRewriteByOptions(options: seq<OptionEntry>, v: string)
    ensures (forall i :: 0 <= i < |options| ==> !Defines(options[i], v)) ==>
              RewriteValue(CodeLookup(options), v) == v
    ensures forall i :: 0 <= i < |options| && Defines(options[i], v) &&
                        (forall j :: i < j < |options| ==> !Defines(options[j], v)) ==>
                        RewriteValue(CodeLookup(options), v) == options[i].mappedCode.value
  {
    CodeLookupLastWins(options, v);
  }

  // ---------------------------------------------------------------------
  // map_attributes
  // ---------------------------------------------------------------------

  /** Python truthiness of `allowed_ids`: only a non-empty set filters. */
  predicate Filters(allowed: Option<set<string>>)
  {
    allowed.Some? && allowed.value != {}
  }

  /** What one input pair contributes to the output: nothing if it is
      filtered out or its attribute is unmapped. */
  function MapOne(a: Attribute, tea: map<string, string>, lookup: map<string, string>,
                  allowed: Option<set<string>>): Option<Attribute>
  {
    if Filters(allowed) && a.attribute !in allowed.value then None
    else if a.attribute in tea then Some(Attribute(tea[a.attribute], RewriteValue(lookup, a.value)))
    else None
  }

  /** The list map_attributes builds over `src`, one element at a time. */
  function MapAll(src: seq<Attribute>, tea: map<string, string>, lookup: map<string, string>,
                  allowed: Option<set<string>>): (r: seq<Attribute>)
    ensures |r| <= |src|
  {
    if src == [] then []
    else
      var prior := MapAll(src[..|src| - 1], tea, lookup, allowed);
      match MapOne(src[|src| - 1], tea, lookup, allowed)
      case None => prior
      case Some(a) => prior + [a]
  }

  /** map_attributes as a function of the mapping dictionary. */
  function MappedAttributes(src: seq<Attribute>, m: Mappings, allowed: Option<set<string>>): seq<Attribute>
  {
    MapAll(src, m.trackedEntityAttributesToTei, CodeLookup(m.options), allowed)
  }

  /** The positions of the inputs that contribute to the output, in order. */
  ghost function Origins(src: seq<Attribute>, tea: map<string, string>, lookup: map<string, string>,
                         allowed: Option<set<string>>): seq<nat>
  {
    if src == [] then []
    else
      var n := |src| - 1;
      var prior := Origins(src[..n], tea, lookup, allowed);
      if MapOne(src[n], tea, lookup, allowed).Some? then prior + [n] else prior
  }

  /** The output is the translation of a strictly increasing selection of
      input positions (so input order is kept), and that selection holds
      every input that translates to something. */
  lemma {:induction false} OriginsSelectInOrder(src: seq<Attribute>, tea: map<string, string>,
                                                lookup: map<string, string>, allowed: Option<set<string>>)
    ensures var idx, r := Origins(src, tea, lookup, allowed), MapAll(src, tea, lookup, allowed);
      && |idx| == |r|
      && (forall k :: 0 <= k < |idx| ==> idx[k] < |src| && MapOne(src[idx[k]], tea, lookup, allowed) == Some(r[k]))
      && (forall k, l :: 0 <= k < l < |idx| ==> idx[k] < idx[l])
      && (forall i :: 0 <= i < |src| && MapOne(src[i], tea, lookup, allowed).Some? ==> i in idx)
  {
    if src != [] {
      var n := |src| - 1;
      var pre := src[..n];
      OriginsSelectInOrder(pre, tea, lookup, allowed);
      var pidx, pr := Origins(pre, tea, lookup, allowed), MapAll(pre, tea, lookup, allowed);
      var idx, r := Origins(src, tea, lookup, allowed), MapAll(src, tea, lookup, allowed);
      assert forall i :: 0 <= i < n ==> pre[i] == src[i];
      assert forall k :: 0 <= k < |pidx| ==> pidx[k] < n;
      if MapOne(src[n], tea, lookup, allowed).Some? {
        assert idx == pidx + [n];
        assert r == pr + [MapOne(src[n], tea, lookup, allowed).value];
      } else {
        assert idx == pidx;
        assert r == pr;
      }
    }
  }

  /** Translating a concatenation translates the parts and concatenates:
      together with the one-element case this fixes the output order. */
  lemma {:induction false} MapAllConcat(a: seq<Attribute>, b: seq<Attribute>, tea: map<string, string>,
                                        lookup: map<string, string>, allowed: Option<set<string>>)
    ensures MapAll(a + b, tea, lookup, allowed) == MapAll(a, tea, lookup, allowed) + MapAll(b, tea, lookup, allowed)
  {
    if b == [] {
      assert a + b == a;
    } else {
      var n := |b| - 1;
      assert (a + b)[..|a + b| - 1] == a + b[..n];
      assert (a + b)[|a + b| - 1] == b[n];
      MapAllConcat(a, b[..n], tea, lookup, allowed);
    }
  }

  /** The output pair `out` is what the input pair `a` translates to. */
  ghost predicate TranslatedFrom(out: Attribute, a: Attribute, m: Mappings, allowed: Option<set<string>>)
  {
    && a.attribute in m.trackedEntityAttributesToTei
    && (Filters(allowed) ==> a.attribute in allowed.value)
    && out == Attribute(m.trackedEntityAttributesToTei[a.attribute], RewriteValue(CodeLookup(m.options), a.value))
  }

  /** Every output pair comes from an input pair whose attribute is mapped
      (and allowed, when the allowed set is non-empty): its attribute is that
      mapping's target and its value is the input value after option rewrite. */
  lemma OutputsComeFromMappedInputs(src: seq<Attribute>, m: Mappings, allowed: Option<set<string>>)
    ensures var r := MappedAttributes(src, m, allowed);
      forall k :: 0 <= k < |r| ==>
        exists i :: 0 <= i < |src| && TranslatedFrom(r[k], src[i], m, allowed)
  {
    var tea, lookup := m.trackedEntityAttributesToTei, CodeLookup(m.options);
    var r := MappedAttributes(src, m, allowed);
    OriginsSelectInOrder(src, tea, lookup, allowed);
    var idx := Origins(src, tea, lookup, allowed);
    forall k | 0 <= k < |r|
      ensures exists i :: 0 <= i < |src| && TranslatedFrom(r[k], src[i], m, allowed)
    {
      var i := idx[k];
      assert MapOne(src[i], tea, lookup, allowed) == Some(r[k]);
      assert TranslatedFrom(r[k], src[i], m, allowed);
    }
  }

  /** With `allowed_ids` None or empty nothing is filtered: the result is the
      same as with no allowed set at all. */
  lemma {:induction false} NoFilterWhenAllowedEmpty(src: seq<Attribute>, m: Mappings, allowed: Option<set<string>>)
    requires !Filters(allowed)
    ensures MappedAttributes(src, m, allowed) == MappedAttributes(src, m, None)
  {
    if src != [] {
      NoFilterWhenAllowedEmpty(src[..|src| - 1], m, allowed);
    }
  }

  /** With a non-empty allowed set the result equals translating only the
      allowed inputs: inputs outside the set contribute nothing. */
  lemma {:induction false} FilterDropsDisallowed(src: seq<Attribute>, m: Mappings, allowed: set<string>)
    requires allowed != {}
    ensures MappedAttributes(src, m, Some(allowed)) ==
            MappedAttributes(OnlyAllowed(src, allowed), m, None)
  {
    if src != [] {
      var n := |src| - 1;
      FilterDropsDisallowed(src[..n], m, allowed);
      var tea, lookup := m.trackedEntityAttributesToTei, CodeLookup(m.options);
      if src[n].attribute in allowed {
        MapAllConcat(OnlyAllowed(src[..n], allowed), [src[n]], tea, lookup, None);
        assert [src[n]][..0] == [];
      }
    }
  }

  /** The inputs whose attribute id is in `allowed`, in order. */
  function OnlyAllowed(src: seq<Attribute>, allowed: set<string>): (r: seq<Attribute>)
    ensures forall k :: 0 <= k < |r| ==> r[k].attribute in allowed
  {
    if src == [] then []
    else
      var prior := OnlyAllowed(src[..|src| - 1], allowed);
      if src[|src| - 1].attribute in allowed then prior + [src[|src| - 1]] else prior
  }

  /** map_attributes. `logWarnings` only decides whether unmapped ids are
      printed, so the result does not depend on it. */
  method MapAttributes(src: seq<Attribute>, m: Mappings, allowed: Option<set<string>>, logWarnings: bool)
    returns (mapped: seq<Attribute>)
    ensures mapped == MappedAttributes(src, m, allowed)
  {
    mapped := [];
    var tea := m.trackedEntityAttributesToTei;
    var lookup := CodeLookup(m.options);
    var i := 0;
    while i < |src|
      invariant 0 <= i <= |src|
      invariant mapped == MapAll(src[..i], tea, lookup, allowed)
    {
      var attr := src[i];
      assert src[..i + 1][..i] == src[..i];
      if Filters(allowed) && attr.attribute !in allowed.value {
        // filtered out
      } else if attr.attribute in tea {
        var mappedVal := if attr.value in lookup then lookup[attr.value] else attr.value;
        mapped := mapped + [Attribute(tea[attr.attribute], mappedVal)];
      }
      i := i + 1;
    }
    assert src[..|src|] == src;
  }
}
