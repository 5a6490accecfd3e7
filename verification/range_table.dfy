/**
 * `setup_c_file_context`: the context for one node, its index bands, and the
 * value-range table: a `#define` and a `switch` case per range entry, checking a
 * value against the entry's bounds.
 */
module RangeTable {
  import opened Wrappers
  import opened Strings
  import opened Types
  import opened TypeResolver
  import opened Context

  /** The node's read-only accessors, as data: `Name`, `ID`, `Type`,
      `Description`, `DefaultStringSize`, `GetIndexes()`, `GetEntryName(index)`,
      `GetEntry(index, subindex)` and `GetTypeName(typeindex)`. */
  datatype NodeProtocol = NodeProtocol(
    name: string,
    id: int,
    nodeType: string,
    description: Option<string>,
    defaultStringSize: int,
    indexes: seq<int>,
    entryNames: map<int, string>,
    entries: map<(int, int), ODValue>,
    typeNames: map<int, string>)
  {
    /** Every declared index of the range band has a name: those are the only
        names the set-up reads. */
    predicate Valid() {
      forall x :: x in indexes && RANGE_LOW <= x <= RANGE_HIGH ==> x in entryNames
    }

    /** `GetEntry(index, subindex)`, `None` where the node holds nothing. */
    function Entry(index: int, subIndex: int): Option<ODValue> {
      if (index, subIndex) in entries then Some(entries[(index, subIndex)]) else None
    }
  }

  /** `[idx for idx in s if lo <= idx <= hi]`: the indexes of a band, in the
      order of `s`. */
  function Band(s: seq<int>, lo: int, hi: int): (r: seq<int>)
    ensures forall x :: x in r <==> x in s && lo <= x <= hi
    ensures |r| <= |s|
  {
    if s == [] then []
    else (if lo <= s[0] <= hi then [s[0]] else []) + Band(s[1..], lo, hi)
  }

  /** Filtering a band out of a band is filtering the intersection of the two. */
  lemma {:induction false} BandOfBand(s: seq<int>, lo: int, hi: int, lo': int, hi': int)
    ensures Band(Band(s, lo, hi), lo', hi') == Band(s, Max(lo, lo'), if hi < hi' then hi else hi')
    decreases |s|
  {
    if s != [] {
      BandOfBand(s[1..], lo, hi, lo', hi');
      var head := if lo <= s[0] <= hi then [s[0]] else [];
      assert Band(s, lo, hi) == head + Band(s[1..], lo, hi);
      BandAppend(head, Band(s[1..], lo, hi), lo', hi');
    }
  }

  /** The communication and variable lists are the bands of `listindex` over
      their bounds, in the same order. */
  lemma ListsWithinListIndex(s: seq<int>)
    ensures Band(Band(s, 0x1000, 0xFFFF), 0x1000, 0x11FF) == Band(s, 0x1000, 0x11FF)
    ensures Band(Band(s, 0x1000, 0xFFFF), 0x2000, 0xBFFF) == Band(s, 0x2000, 0xBFFF)
  {
    BandOfBand(s, 0x1000, 0xFFFF, 0x1000, 0x11FF);
    BandOfBand(s, 0x1000, 0xFFFF, 0x2000, 0xBFFF);
  }

  lemma {:induction false} BandAppend(a: seq<int>, b: seq<int>, lo: int, hi: int)
    ensures Band(a + b, lo, hi) == Band(a, lo, hi) + Band(b, lo, hi)
    decreases |a|
  {
    if a == [] {
      assert a + b == b;
    } else {
      var head := if lo <= a[0] <= hi then [a[0]] else [];
      assert Band(a + b, lo, hi) == head + Band(a[1..] + b, lo, hi) by {
        assert (a + b)[0] == a[0] && (a + b)[1..] == a[1..] + b;
      }
      BandAppend(a[1..], b, lo, hi);
      assert Band(a, lo, hi) == head + Band(a[1..], lo, hi);
      assert head + (Band(a[1..], lo, hi) + Band(b, lo, hi))
          == (head + Band(a[1..], lo, hi)) + Band(b, lo, hi);
    }
  }

  const RANGE_LOW := 0
  const RANGE_HIGH := 0x260

  /** The metadata the context is filled with. */
  function Metadata(node: NodeProtocol): (m: map<string, MetaValue>)
    ensures m.Keys == {"maxPDOtransmit", NODE_NAME_KEY, "NodeID", "NodeType", "Description", "iam_a_slave"}
    ensures m["iam_a_slave"] == MetaInt(1) <==> node.nodeType == "slave"
    ensures m["iam_a_slave"] == MetaInt(0) <==> node.nodeType != "slave"
    ensures m["NodeID"] == MetaInt(node.id) && m["NodeType"] == MetaStr(node.nodeType)
    ensures node.description.Some? ==> m["Description"] == MetaStr(node.description.value)
    ensures node.description.None? ==> m["Description"] == MetaStr("")
    ensures m[NODE_NAME_KEY] == MetaStr(node.name) && m["maxPDOtransmit"] == MetaInt(0)
  {
    map[]["maxPDOtransmit" := MetaInt(0)]
         [NODE_NAME_KEY := MetaStr(node.name)]
         ["NodeID" := MetaInt(node.id)]
         ["NodeType" := MetaStr(node.nodeType)]
         ["Description" := MetaStr(if node.description.Some? then node.description.value else "")]
         ["iam_a_slave" := MetaInt(if node.nodeType == "slave" then 1 else 0)]
  }

  /** How much of `name` the leading `([_A-Z]*)([0-9]*)` groups consume. */
  function HeadLength(name: string): (k: nat)
    ensures k <= |name|
  {
    var u := Span(IsTypeChar, name);
    u + Span(IsDigit, name[u..])
  }

  /** The range pattern `([_A-Z]*)([0-9]*)\[([-0-9]*)-([-0-9]*)\]` matched at the
      start of the name: the maximal `[_A-Z]` run, the maximal digit run, then
      a bracketed bounds text. */
  predicate MatchesRange(name: string) {
    Bracketed(name[HeadLength(name)..])
  }

  /** `t` opens with `[`, a maximal `[-0-9]` run that holds a `-`, and `]`. */
  predicate Bracketed(t: string) {
    t != [] && t[0] == '[' &&
    var n := Span(IsRangeChar, t[1..]);
    1 + n < |t| && t[1 + n] == ']' && '-' in t[1..1 + n]
  }

  /** The language of the range pattern, stated directly: a name that starts
      with `u d [ b ]` where `u` is in `[_A-Z]*`, `d` in `[0-9]*` and `b` is a
      `[-0-9]` text holding a `-` (the two bound groups and the dash between them). */
  ghost predicate RangeShape(name: string, u: string, d: string, b: string, rest: string) {
    && name == u + (d + ("[" + (b + ("]" + rest))))
    && All(IsTypeChar, u) && All(IsDigit, d) && All(IsRangeChar, b) && '-' in b
  }

  /** The hand-written matcher accepts exactly the names of the pattern's language. */
  lemma MatchesRangeExactly(name: string)
    ensures MatchesRange(name) <==> exists u, d, b, rest :: RangeShape(name, u, d, b, rest)
  {
    if MatchesRange(name) {
      var u, d, b, rest := MatchedParts(name);
    }
    if exists u, d, b, rest :: RangeShape(name, u, d, b, rest) {
      var u, d, b, rest :| RangeShape(name, u, d, b, rest);
      RangeShapeMatches(name, u, d, b, rest);
    }
  }

  lemma MatchedParts(name: string) returns (u: string, d: string, b: string, rest: string)
    requires MatchesRange(name)
    ensures RangeShape(name, u, d, b, rest)
  {
    u, d := HeadParts(name);
    b, rest := BracketedParts(name[HeadLength(name)..]);
  }

  lemma HeadParts(name: string) returns (u: string, d: string)
    ensures name == u + (d + name[HeadLength(name)..])
    ensures All(IsTypeChar, u) && All(IsDigit, d)
  {
    var tail, after;
    u, tail := SpanSplit(IsTypeChar, name);
    d, after := SpanSplit(IsDigit, tail);
    assert name == u + (d + after) by {
      assert tail == d + after;
    }
    assert name[HeadLength(name)..] == after by {
      assert HeadLength(name) == |u| + |d|;
      assert name[|u|..] == tail;
      assert name[|u| + |d|..] == tail[|d|..];
    }
  }

  lemma BracketedParts(t: string) returns (b: string, rest: string)
    requires Bracketed(t)
    ensures t == "[" + (b + ("]" + rest))
    ensures All(IsRangeChar, b) && '-' in b
  {
    var n := Span(IsRangeChar, t[1..]);
    b, rest := t[1..1 + n], t[2 + n..];
    assert t[1..][..n] == b;
    assert t[1 + n..] == "]" + rest;
    assert t[1..] == b + ("]" + rest);
  }

  lemma RangeShapeMatches(name: string, u: string, d: string, b: string, rest: string)
    requires RangeShape(name, u, d, b, rest)
    ensures MatchesRange(name)
  {
    var t := "[" + (b + ("]" + rest));
    assert name == u + (d + t);
    BracketedOf(t, b, rest);
    assert name[HeadLength(name)..] == t by {
      HeadOf(u, d, t);
    }
  }

  lemma HeadOf(u: string, d: string, t: string)
    requires All(IsTypeChar, u) && All(IsDigit, d)
    requires t != [] && t[0] == '['
    ensures HeadLength(u + (d + t)) == |u| + |d|
    ensures (u + (d + t))[|u| + |d|..] == t
  {
    var name := u + (d + t);
    SpanOf(IsTypeChar, u, d + t);
    assert name[|u|..] == d + t;
    SpanOf(IsDigit, d, t);
  }

  lemma BracketedOf(t: string, b: string, rest: string)
    requires t == "[" + (b + ("]" + rest))
    requires All(IsRangeChar, b) && '-' in b
    ensures Bracketed(t)
  {
    assert t[1..] == b + ("]" + rest);
    SpanOf(IsRangeChar, b, "]" + rest);
    assert t[1..1 + |b|] == b;
  }

  /** A typical range entry name, `UNS8[0-100]`, is taken for a range entry. */
  lemma RangeNameExample(name: string)
    requires name == "UNS8[0-100]"
    ensures MatchesRange(name)
  {
    assert name == "UNS" + ("8" + ("[" + ("0-100" + ("]" + ""))));
    assert "0-100"[1] == '-';
    RangeShapeMatches(name, "UNS", "8", "0-100", "");
  }

  /** One matched range entry: its number, index, name, resolved base type and bounds. */
  datatype RangeCase = RangeCase(num: nat, index: nat, name: string, base: TypeInfos, min: int, max: int)

  /** What the walk over the range band has built so far: the type cache and the
      matched entries (the counter is their number). */
  datatype RangeState = RangeState(cache: map<string, TypeInfos>, cases: seq<RangeCase>)

  const EMC_TYPE := TypeInfos("UNS8", Some(0), "valueRange_EMC", true)

  function InitialState(): RangeState {
    RangeState(map["valueRange_EMC" := EMC_TYPE], [])
  }

  /** The pseudo-type registered under a range entry's name. */
  function PseudoType(base: TypeInfos, num: nat): TypeInfos {
    TypeInfos(base.typeName, base.size, "valueRange_" + IntToDecimal(num), base.isUnsigned)
  }

  /** `GetEntry(...)` holds an integer (`isinstance(v, int)`). */
  predicate IsInt(v: Option<ODValue>) {
    v.Some? && v.value.IntValue?
  }

  /** The fields a range entry needs: sub-index 1 an integer type index that
      names a type resolving against `cache`, sub-indexes 2 and 3 integer bounds. */
  predicate WellFormedRange(node: NodeProtocol, cache: map<string, TypeInfos>, index: int) {
    var typeIndex := node.Entry(index, 1);
    && IsInt(typeIndex) && typeIndex.value.i in node.typeNames
    && Resolve(cache, node.defaultStringSize, node.typeNames[typeIndex.value.i], []).Success?
    && IsInt(node.Entry(index, 2)) && IsInt(node.Entry(index, 3))
  }

  /** What a successful step does: nothing for a name the pattern does not
      match; otherwise it appends one case built from the entry (`StepCases`)
      and registers it in the cache its resolution leaves (`StepCache`). */
  ghost predicate Advances(node: NodeProtocol, st: RangeState, st': RangeState, index: int)
    requires index in node.entryNames
  {
    StepCases(node, st.cases, st'.cases, index) && StepCache(node, st, st', index)
  }

  /** The cases after a step: unchanged for a name the pattern does not match;
      otherwise one case more, numbered after the ones before it, carrying the
      entry's index, name and bounds. */
  ghost predicate StepCases(node: NodeProtocol, before: seq<RangeCase>, after: seq<RangeCase>, index: int)
    requires index in node.entryNames
  {
    var name := node.entryNames[index];
    if !MatchesRange(name) then after == before
    else
      && |after| == |before| + 1
      && after[..|before|] == before
      && var c := after[|before|];
      && c.num == |before| + 1 && c.index == index && c.name == name
      && EntryFields(node, c)
  }

  /** The cache after a step: unchanged for a name the pattern does not match;
      otherwise the entry's fields are well formed, the new case's base is the
      type its type index resolves to, and the cache is the one that resolution
      leaves with the case's pseudo-type under the name (so every other cache
      entry is kept). */
  ghost predicate StepCache(node: NodeProtocol, st: RangeState, st': RangeState, index: int)
    requires index in node.entryNames
  {
    var name := node.entryNames[index];
    if !MatchesRange(name) then st'.cache == st.cache
    else
      && WellFormedRange(node, st.cache, index)
      && |st'.cases| == |st.cases| + 1
      && var c := st'.cases[|st.cases|];
      && var resolved := Resolve(st.cache, node.defaultStringSize, node.typeNames[node.Entry(index, 1).value.i], []).value;
      && c.base == resolved.0
      && st'.cache == resolved.1[name := PseudoType(c.base, c.num)]
      && name in st'.cache && st'.cache[name] == PseudoType(c.base, c.num)
      && forall k :: k in st.cache && k != name ==> k in st'.cache && st'.cache[k] == st.cache[k]
  }

  /** One iteration of the walk: an entry whose name does not match is skipped;
      a matching entry is numbered, its base type resolved and registered, its
      bounds read. A field that is not an integer fails. */
  function RangeStep(node: NodeProtocol, st: RangeState, index: int): (r: Result<RangeState, Error>)
    requires index in node.entryNames && 0 <= index
    ensures !MatchesRange(node.entryNames[index]) ==> r == Success(st)
  {
    var name := node.entryNames[index];
    if !MatchesRange(name) then Success(st)
    else
      var num := |st.cases| + 1;
      var typeIndex := node.Entry(index, 1);
      if !(typeIndex.Some? && typeIndex.value.IntValue?) then Failure(NotAnInteger(index, 1))
      else if typeIndex.value.i !in node.typeNames then Failure(UnknownTypeIndex(typeIndex.value.i))
      else
        var resolved :- Resolve(st.cache, node.defaultStringSize, node.typeNames[typeIndex.value.i], []);
        var cache := resolved.1[name := PseudoType(resolved.0, num)];
        var minValue := node.Entry(index, 2);
        var maxValue := node.Entry(index, 3);
        if !(minValue.Some? && minValue.value.IntValue?) then Failure(NotAnInteger(index, 2))
        else if !(maxValue.Some? && maxValue.value.IntValue?) then Failure(NotAnInteger(index, 3))
        else Success(RangeState(cache, st.cases + [RangeCase(num, index, name, resolved.0, minValue.value.i, maxValue.value.i)]))
  }

  /** A successful step advances the state as `Advances` describes. */
  lemma StepAdvances(node: NodeProtocol, st: RangeState, index: int)
    requires index in node.entryNames && 0 <= index
    requires RangeStep(node, st, index).Success?
    ensures Advances(node, st, RangeStep(node, st, index).value, index)
  {
  }

  /** A matching entry fails exactly when one of its fields is not well formed,
      with the error of the first such field: a non-integer type index, a type
      index without a type name, a type name that does not resolve, a
      non-integer low or high bound. */
  lemma StepFails(node: NodeProtocol, st: RangeState, index: int)
    requires index in node.entryNames && 0 <= index && MatchesRange(node.entryNames[index])
    ensures RangeStep(node, st, index).Failure? <==> !WellFormedRange(node, st.cache, index)
    ensures var typeIndex := node.Entry(index, 1);
            !IsInt(typeIndex) ==> RangeStep(node, st, index) == Failure(NotAnInteger(index, 1))
    ensures var typeIndex := node.Entry(index, 1);
            IsInt(typeIndex) && typeIndex.value.i !in node.typeNames ==>
              RangeStep(node, st, index) == Failure(UnknownTypeIndex(typeIndex.value.i))
    ensures var typeIndex := node.Entry(index, 1);
            IsInt(typeIndex) && typeIndex.value.i in node.typeNames &&
            Resolve(st.cache, node.defaultStringSize, node.typeNames[typeIndex.value.i], []).Failure? ==>
              RangeStep(node, st, index) == Failure(InvalidType(node.typeNames[typeIndex.value.i]))
    ensures var typeIndex := node.Entry(index, 1);
            IsInt(typeIndex) && typeIndex.value.i in node.typeNames &&
            Resolve(st.cache, node.defaultStringSize, node.typeNames[typeIndex.value.i], []).Success? ==>
              && (!IsInt(node.Entry(index, 2)) ==> RangeStep(node, st, index) == Failure(NotAnInteger(index, 2)))
              && (IsInt(node.Entry(index, 2)) && !IsInt(node.Entry(index, 3)) ==>
                    RangeStep(node, st, index) == Failure(NotAnInteger(index, 3)))
  {
  }

  /** Every index of `band` is a named, non-negative index of the node. */
  predicate InBand(node: NodeProtocol, band: seq<int>) {
    forall i :: 0 <= i < |band| ==> band[i] in node.entryNames && 0 <= band[i]
  }

  lemma InBandSuffix(node: NodeProtocol, band: seq<int>, i: nat)
    requires InBand(node, band) && i <= |band|
    ensures InBand(node, band[i..])
  {
    assert forall k :: 0 <= k < |band| - i ==> band[i..][k] == band[i + k];
  }

  /** The walk over `band` from state `st`. It can only fail at a matching
      entry, and a band without one leaves the state as it is. */
  function BuildRanges(node: NodeProtocol, st: RangeState, band: seq<int>): (r: Result<RangeState, Error>)
    requires InBand(node, band)
    ensures r.Failure? ==> exists i :: 0 <= i < |band| && MatchesRange(node.entryNames[band[i]])
    ensures MatchingIndexes(node, band) == [] ==> r == Success(st)
    decreases |band|
  {
    if band == [] then Success(st)
    else
      match RangeStep(node, st, band[0])
      case Failure(e) => Failure(e)
      case Success(st') =>
        var r := BuildRanges(node, st', band[1..]);
        assert r.Failure? ==> exists i :: 0 <= i < |band| && MatchesRange(node.entryNames[band[i]]) by {
          if r.Failure? {
            var i :| 0 <= i < |band[1..]| && MatchesRange(node.entryNames[band[1..][i]]);
            assert band[1..][i] == band[i + 1];
          }
        }
        r
  }

  /** The indexes the value-range walk visits. */
  function RangeBand(node: NodeProtocol): (band: seq<int>)
    ensures node.Valid() ==> InBand(node, band)
  {
    var band := Band(node.indexes, RANGE_LOW, RANGE_HIGH);
    assert forall i :: 0 <= i < |band| ==> band[i] in band;
    band
  }

  /** The value-range walk of a node, from the pre-registered EMC type. */
  function ValueRanges(node: NodeProtocol): (r: Result<RangeState, Error>)
    requires node.Valid()
    ensures r.Failure? ==> exists i :: 0 <= i < |RangeBand(node)| && MatchesRange(node.entryNames[RangeBand(node)[i]])
    ensures MatchingIndexes(node, RangeBand(node)) == [] ==> r == Success(InitialState())
  {
    BuildRanges(node, InitialState(), RangeBand(node))
  }

  /** The indexes of `band` whose entry names match the range pattern, in order. */
  function MatchingIndexes(node: NodeProtocol, band: seq<int>): seq<int>
    requires InBand(node, band)
    decreases |band|
  {
    if band == [] then []
    else (if MatchesRange(node.entryNames[band[0]]) then [band[0]] else []) + MatchingIndexes(node, band[1..])
  }

  function CaseIndexes(cases: seq<RangeCase>): seq<int> {
    if cases == [] then [] else [cases[0].index] + CaseIndexes(cases[1..])
  }

  lemma {:induction false} CaseIndexesAppend(a: seq<RangeCase>, b: seq<RangeCase>)
    ensures CaseIndexes(a + b) == CaseIndexes(a) + CaseIndexes(b)
    decreases |a|
  {
    if a == [] {
      assert a + b == b;
    } else {
      assert (a + b)[0] == a[0] && (a + b)[1..] == a[1..] + b;
      CaseIndexesAppend(a[1..], b);
    }
  }

  /** The counter advances only on matching names: the walk appends one case per
      matching index, in band order, numbered on from the cases already there,
      each carrying its own entry's name. */
  lemma {:induction false} BuildRangesCases(node: NodeProtocol, st: RangeState, band: seq<int>)
    requires InBand(node, band)
    requires BuildRanges(node, st, band).Success?
    ensures CasesFrom(node, st.cases, BuildRanges(node, st, band).value.cases, band)
    decreases |band|
  {
    if band == [] {
      assert BuildRanges(node, st, band).value.cases[|st.cases|..] == [];
    } else {
      var st' := RangeStep(node, st, band[0]).value;
      StepAdvances(node, st, band[0]);
      BuildRangesCases(node, st', band[1..]);
      CasesStep(node, st, st', band, BuildRanges(node, st', band[1..]).value.cases);
    }
  }

  /** `cases` extends `before` by one case per index of `band` whose name
      matches, in band order, numbered on from `before`, each carrying its own
      entry's name. */
  ghost predicate CasesFrom(node: NodeProtocol, before: seq<RangeCase>, cases: seq<RangeCase>, band: seq<int>)
    requires InBand(node, band)
  {
    && |before| <= |cases| && cases[..|before|] == before
    && CaseIndexes(cases[|before|..]) == MatchingIndexes(node, band)
    && (forall i :: |before| <= i < |cases| ==> cases[i].num == i + 1)
    && (forall i :: |before| <= i < |cases| ==>
          cases[i].index in node.entryNames && cases[i].name == node.entryNames[cases[i].index])
    && (forall i :: |before| <= i < |cases| ==> EntryFields(node, cases[i]))
  }

  /** The case's entry has an integer type index that names a type, and the
      case's bounds are the entry's integer sub-indexes 2 and 3. */
  predicate EntryFields(node: NodeProtocol, c: RangeCase) {
    && IsInt(node.Entry(c.index, 1)) && node.Entry(c.index, 1).value.i in node.typeNames
    && node.Entry(c.index, 2) == Some(IntValue(c.min)) && node.Entry(c.index, 3) == Some(IntValue(c.max))
  }

  lemma CasesStep(node: NodeProtocol, st: RangeState, st': RangeState, band: seq<int>, cases: seq<RangeCase>)
    requires InBand(node, band) && band != []
    requires StepCases(node, st.cases, st'.cases, band[0])
    requires CasesFrom(node, st'.cases, cases, band[1..])
    ensures CasesFrom(node, st.cases, cases, band)
  {
    if MatchesRange(node.entryNames[band[0]]) {
      var c := st'.cases[|st.cases|];
      assert st'.cases == st.cases + [c];
      assert cases[..|st.cases|] == st'.cases[..|st.cases|];
      assert cases[|st.cases|..] == [c] + cases[|st'.cases|..];
      CaseIndexesAppend([c], cases[|st'.cases|..]);
    }
  }

  /** The cases of a node's table are numbered 1, 2, ... and are exactly the
      range-band indexes whose names match the range pattern, in band order;
      each carries its entry's name and bounds, and its entry's type index is
      an integer naming a type. */
  lemma ValueRangeNumbering(node: NodeProtocol)
    requires node.Valid()
    requires ValueRanges(node).Success?
    ensures var cases := ValueRanges(node).value.cases;
            && CaseIndexes(cases) == MatchingIndexes(node, RangeBand(node))
            && (forall i :: 0 <= i < |cases| ==> cases[i].num == i + 1)
            && (forall i :: 0 <= i < |cases| ==>
                 cases[i].index in node.entryNames && cases[i].name == node.entryNames[cases[i].index])
            && forall i :: 0 <= i < |cases| ==> EntryFields(node, cases[i])
  {
    BuildRangesCases(node, InitialState(), RangeBand(node));
    assert ValueRanges(node).value.cases[0..] == ValueRanges(node).value.cases;
  }

  /** Every case is registered in the cache under its own name, unless a later
      case has the same name; every other non-range name keeps its entry. */
  ghost predicate Registered(st: RangeState) {
    forall i :: 0 <= i < |st.cases| && LastOfName(st.cases, i) ==>
      st.cases[i].name in st.cache && st.cache[st.cases[i].name] == PseudoType(st.cases[i].base, st.cases[i].num)
  }

  /** No case after the `i`-th has its name. */
  ghost predicate LastOfName(cases: seq<RangeCase>, i: int)
    requires 0 <= i < |cases|
  {
    forall j :: i < j < |cases| ==> cases[j].name != cases[i].name
  }

  lemma AdvancesRegisters(node: NodeProtocol, st: RangeState, st': RangeState, index: int)
    requires index in node.entryNames
    requires Registered(st)
    requires Advances(node, st, st', index)
    ensures Registered(st')
    ensures forall k :: k in st.cache && !MatchesRange(k) ==> k in st'.cache && st'.cache[k] == st.cache[k]
  {
    var name := node.entryNames[index];
    if MatchesRange(name) {
      var n := |st.cases|;
      assert st'.cases[n].name == name;
      RegistersMatched(st, st', name);
      forall k | k in st.cache && !MatchesRange(k)
        ensures k in st'.cache && st'.cache[k] == st.cache[k]
      {
        assert k != name;
      }
    }
  }

  lemma RegistersMatched(st: RangeState, st': RangeState, name: string)
    requires Registered(st)
    requires |st'.cases| == |st.cases| + 1 && st'.cases[..|st.cases|] == st.cases
    requires st'.cases[|st.cases|].name == name
    requires name in st'.cache && st'.cache[name] == PseudoType(st'.cases[|st.cases|].base, st'.cases[|st.cases|].num)
    requires forall k :: k in st.cache && k != name ==> k in st'.cache && st'.cache[k] == st.cache[k]
    ensures Registered(st')
  {
    forall i | 0 <= i < |st'.cases| && LastOfName(st'.cases, i)
      ensures st'.cases[i].name in st'.cache && st'.cache[st'.cases[i].name] == PseudoType(st'.cases[i].base, st'.cases[i].num)
    {
      if i < |st.cases| {
        KeptRegistration(st, st', name, i);
      }
    }
  }

  lemma KeptRegistration(st: RangeState, st': RangeState, name: string, i: nat)
    requires Registered(st)
    requires |st'.cases| == |st.cases| + 1 && st'.cases[..|st.cases|] == st.cases
    requires st'.cases[|st.cases|].name == name
    requires forall k :: k in st.cache && k != name ==> k in st'.cache && st'.cache[k] == st.cache[k]
    requires i < |st.cases| && LastOfName(st'.cases, i)
    ensures st'.cases[i].name in st'.cache && st'.cache[st'.cases[i].name] == PseudoType(st'.cases[i].base, st'.cases[i].num)
  {
    var n := |st.cases|;
    assert st'.cases[i] == st.cases[i];
    assert st'.cases[n].name != st.cases[i].name;
    assert LastOfName(st.cases, i) by {
      forall j | i < j < n
        ensures st.cases[j].name != st.cases[i].name
      {
        assert st'.cases[j] == st.cases[j];
      }
    }
  }

  lemma {:induction false} BuildRangesRegisters(node: NodeProtocol, st: RangeState, band: seq<int>)
    requires InBand(node, band)
    requires Registered(st)
    requires BuildRanges(node, st, band).Success?
    ensures Registered(BuildRanges(node, st, band).value)
    ensures forall k :: k in st.cache && !MatchesRange(k) ==>
              k in BuildRanges(node, st, band).value.cache && BuildRanges(node, st, band).value.cache[k] == st.cache[k]
    decreases |band|
  {
    if band != [] {
      var st' := RangeStep(node, st, band[0]).value;
      StepAdvances(node, st, band[0]);
      AdvancesRegisters(node, st, st', band[0]);
      BuildRangesRegisters(node, st', band[1..]);
    }
  }

  /** After the walk, `valueRange_EMC` is still the pre-registered type, and each
      case whose name no later case repeats has its pseudo-type `valueRange_N`
      under its name: the base type's storage type, size and signedness. */
  lemma PseudoTypesRegistered(node: NodeProtocol)
    requires node.Valid()
    requires ValueRanges(node).Success?
    ensures var st := ValueRanges(node).value;
            && "valueRange_EMC" in st.cache && st.cache["valueRange_EMC"] == EMC_TYPE
            && Registered(st)
  {
    EmcIsNoRange("valueRange_EMC");
    BuildRangesRegisters(node, InitialState(), RangeBand(node));
  }

  /** The pre-registered name cannot be taken for a range entry's name. */
  lemma EmcIsNoRange(name: string)
    requires name == "valueRange_EMC"
    ensures !MatchesRange(name)
  {
    assert name[0] == 'v';
    assert Span(IsTypeChar, name) == 0;
    assert name[0..] == name;
    assert HeadLength(name) == 0;
  }

  /** After the walk, looking up `valueRange_EMC` or the name of a registered
      range entry returns the stored record and leaves the cache alone, whatever
      items are passed. */
  lemma RegisteredNamesResolve(node: NodeProtocol, i: nat, items: seq<string>)
    requires node.Valid()
    requires ValueRanges(node).Success?
    ensures var st := ValueRanges(node).value;
            Resolve(st.cache, node.defaultStringSize, "valueRange_EMC", items) == Success((EMC_TYPE, st.cache))
    ensures var st := ValueRanges(node).value;
            i < |st.cases| && LastOfName(st.cases, i) ==>
              Resolve(st.cache, node.defaultStringSize, st.cases[i].name, items)
                == Success((PseudoType(st.cases[i].base, st.cases[i].num), st.cache))
  {
    PseudoTypesRegistered(node);
  }

  /** One bound check of a case block. */
  datatype Check = LowIgnored | TooLow(bound: int) | TooHigh(bound: int)

  /** The low check is left out exactly for an unsigned type with a bound of at
      most 0; the high check is always there. */
  function CaseChecks(c: RangeCase): (checks: seq<Check>)
    ensures |checks| == 2 && checks[1] == TooHigh(c.max)
    ensures checks[0] == LowIgnored <==> c.base.isUnsigned && c.min <= 0
    ensures checks[0] != LowIgnored ==> checks[0] == TooLow(c.min)
  {
    [if c.base.isUnsigned && c.min <= 0 then LowIgnored else TooLow(c.min), TooHigh(c.max)]
  }

  datatype Verdict = Accepted | ValueTooLow | ValueTooHigh

  /** What the checks do with the value `v`: the first check that fires returns. */
  function Run(checks: seq<Check>, v: int): Verdict {
    if checks == [] then Accepted
    else match checks[0]
      case TooLow(b) => if v < b then ValueTooLow else Run(checks[1..], v)
      case TooHigh(b) => if v > b then ValueTooHigh else Run(checks[1..], v)
      case LowIgnored => Run(checks[1..], v)
  }

  /** Leaving the low check out loses nothing: for every value of the type (never
      negative for an unsigned type) the checks reject exactly the values outside
      [min, max], below-range first. */
  lemma CaseChecksExact(c: RangeCase, v: int)
    requires c.base.isUnsigned ==> 0 <= v
    ensures Run(CaseChecks(c), v) == if v < c.min then ValueTooLow else if v > c.max then ValueTooHigh else Accepted
  {
    var checks := CaseChecks(c);
    assert checks[1..] == [TooHigh(c.max)];
    assert Run(checks[1..], v) == if v > c.max then ValueTooHigh else Accepted by {
      assert checks[1..][1..] == [];
    }
  }

  const EMC_DEFINE := "\n#define valueRange_EMC 0x9F /* Type for index 0x1003 subindex 0x00 (only set of value 0 is possible) */"
  const EMC_CASE := "    case valueRange_EMC:\n      if (*(UNS8*)value != (UNS8)0) return OD_VALUE_RANGE_EXCEEDED;\n      break;\n"
  const LOW_IGNORED_LINE := "      /* Negative or null low limit ignored because of unsigned type */;\n"
  const SWITCH_OPEN := "\n  switch (typeValue) {\n"
  const FUNCTION_END := "  }\n  return 0;\n}\n"

  function DefineLine(c: RangeCase): string {
    "\n#define valueRange_" + IntToDecimal(c.num) + " 0x" + Hex2(c.index, true) +
    " /* Type " + c.base.typeName + ", " + IntToDecimal(c.min) + " < value < " + IntToDecimal(c.max) + " */"
  }

  function CheckLine(typeName: string, check: Check): string {
    match check
    case LowIgnored => LOW_IGNORED_LINE
    case TooLow(b) => "      if (*(" + typeName + "*)value < (" + typeName + ")" + IntToDecimal(b) + ") return OD_VALUE_TOO_LOW;\n"
    case TooHigh(b) => "      if (*(" + typeName + "*)value > (" + typeName + ")" + IntToDecimal(b) + ") return OD_VALUE_TOO_HIGH;\n"
  }

  function CaseHead(c: RangeCase): string {
    "    case valueRange_" + IntToDecimal(c.num) + ":\n"
  }

  function CaseBlock(c: RangeCase): string {
    var checks := CaseChecks(c);
    CaseHead(c) + CheckLine(c.base.typeName, checks[0]) + CheckLine(c.base.typeName, checks[1]) + "    break;\n"
  }

  function Defines(cases: seq<RangeCase>): string {
    if cases == [] then "" else Defines(cases[..|cases| - 1]) + DefineLine(cases[|cases| - 1])
  }

  function Cases(cases: seq<RangeCase>): string {
    if cases == [] then "" else Cases(cases[..|cases| - 1]) + CaseBlock(cases[|cases| - 1])
  }

  /** The whole text of the value-range table and function. */
  function TableText(nodeName: string, cases: seq<RangeCase>): string {
    EMC_DEFINE + Defines(cases) + HeaderText(nodeName) + SWITCH_OPEN + (EMC_CASE + Cases(cases)) + FUNCTION_END
  }

  /** What `setup_c_file_context` returns. */
  datatype Generated = Generated(
    ctx: CFileContext,
    listIndex: seq<int>,
    variableList: seq<int>,
    communicationList: seq<int>,
    valueRangeContent: Text)

  lemma ConcatAssoc(s: string, a: string, b: string)
    ensures s + a + b == s + (a + b)
  {
  }

  /** A step that fails ends the walk with its error. */
  lemma WalkStops(node: NodeProtocol, st: RangeState, band: seq<int>, e: Error)
    requires InBand(node, band) && band != []
    requires RangeStep(node, st, band[0]) == Failure(e)
    ensures BuildRanges(node, st, band) == Failure(e)
  {
  }

  /** The step for a matching entry whose fields are all integers and whose base
      type resolves. */
  lemma StepMatched(node: NodeProtocol, st: RangeState, index: int, typeIndex: int,
                    cache: map<string, TypeInfos>, c: RangeCase)
    requires index in node.entryNames && 0 <= index && MatchesRange(node.entryNames[index])
    requires node.Entry(index, 1) == Some(IntValue(typeIndex)) && typeIndex in node.typeNames
    requires Resolve(st.cache, node.defaultStringSize, node.typeNames[typeIndex], []) == Success((c.base, cache))
    requires node.Entry(index, 2) == Some(IntValue(c.min)) && node.Entry(index, 3) == Some(IntValue(c.max))
    requires c.num == |st.cases| + 1 && c.index == index && c.name == node.entryNames[index]
    ensures RangeStep(node, st, index) == Success(RangeState(cache[c.name := PseudoType(c.base, c.num)], st.cases + [c]))
  {
  }

  /** A range entry that is well formed against a cache stays well formed
      against any cache with more keys: a cached name resolves, and an uncached
      one is classified the same way. */
  lemma WellFormedGrows(node: NodeProtocol, cache: map<string, TypeInfos>, cache': map<string, TypeInfos>, index: int)
    requires WellFormedRange(node, cache, index) && cache.Keys <= cache'.Keys
    ensures WellFormedRange(node, cache', index)
  {
    var typename := node.typeNames[node.Entry(index, 1).value.i];
    if typename !in cache' {
      assert typename !in cache;
    }
  }

  /** A successful step only adds keys to the cache. */
  lemma StepKeepsKeys(node: NodeProtocol, st: RangeState, index: int)
    requires index in node.entryNames && 0 <= index
    requires RangeStep(node, st, index).Success?
    ensures st.cache.Keys <= RangeStep(node, st, index).value.cache.Keys
  {
    if MatchesRange(node.entryNames[index]) {
      StepAdvances(node, st, index);
    }
  }

  /** The walk succeeds when every matching entry of the band is well formed
      against the cache it starts from. */
  lemma {:induction false} BuildRangesSucceeds(node: NodeProtocol, st: RangeState, band: seq<int>)
    requires InBand(node, band)
    requires forall i :: 0 <= i < |band| && MatchesRange(node.entryNames[band[i]]) ==> WellFormedRange(node, st.cache, band[i])
    ensures BuildRanges(node, st, band).Success?
    decreases |band|
  {
    if band != [] {
      var index := band[0];
      if MatchesRange(node.entryNames[index]) {
        StepFails(node, st, index);
      }
      var st' := RangeStep(node, st, index).value;
      StepKeepsKeys(node, st, index);
      InBandSuffix(node, band, 1);
      var rest := band[1..];
      forall i | 0 <= i < |rest| && MatchesRange(node.entryNames[rest[i]])
        ensures WellFormedRange(node, st'.cache, rest[i])
      {
        assert rest[i] == band[i + 1];
        WellFormedGrows(node, st.cache, st'.cache, rest[i]);
      }
      BuildRangesSucceeds(node, st', rest);
    }
  }

  /** Appends the `#define` line of one range case. */
  method AppendDefine(strDefine: Text, ghost prefix: string, ghost cases: seq<RangeCase>, c: RangeCase)
    requires strDefine.text == prefix + Defines(cases)
    modifies strDefine
    ensures strDefine.text == prefix + Defines(cases + [c])
  {
    var line := DefineLine(c);
    strDefine.Append(line);
    assert Defines(cases + [c]) == Defines(cases) + line by {
      assert (cases + [c])[..|cases|] == cases;
    }
    ConcatAssoc(prefix, Defines(cases), line);
  }

  /** Appends the `switch` case of one range case: the low check, or the note
      that it is left out, then the high check. */
  method AppendCase(strSwitch: Text, ghost prefix: string, ghost cases: seq<RangeCase>, c: RangeCase)
    requires strSwitch.text == prefix + Cases(cases)
    modifies strSwitch
    ensures strSwitch.text == prefix + Cases(cases + [c])
  {
    var typeName := c.base.typeName;
    var checks := CaseChecks(c);
    ghost var start := strSwitch.text;
    var head := CaseHead(c);
    strSwitch.Append(head);
    var low := CheckLine(typeName, checks[0]);
    strSwitch.Append(low);
    ConcatAssoc(start, head, low);
    var high := CheckLine(typeName, checks[1]);
    strSwitch.Append(high);
    ConcatAssoc(start, head + low, high);
    var close := "    break;\n";
    strSwitch.Append(close);
    ConcatAssoc(start, head + low + high, close);
    assert head + low + high + close == CaseBlock(c);
    assert (cases + [c])[..|cases|] == cases;
    assert Cases(cases + [c]) == Cases(cases) + CaseBlock(c);
    ghost var block := CaseBlock(c);
    assert strSwitch.text == start + block;
    ConcatAssoc(prefix, Cases(cases), block);
  }

  /** The registration part of one loop iteration for a matching entry: reads
      the entry's type index, resolves its type through the context, registers
      the pseudo-type under the entry's name and reads the bounds. */
  method RegisterRange(ctx: CFileContext, node: NodeProtocol, index: int, num: nat, ghost cases: seq<RangeCase>)
    returns (r: Result<RangeCase, Error>)
    requires index in node.entryNames && 0 <= index && MatchesRange(node.entryNames[index])
    requires num == |cases| + 1 && ctx.defaultStringSize == node.defaultStringSize
    modifies ctx`internalTypes
    ensures var step := RangeStep(node, RangeState(old(ctx.internalTypes), cases), index);
            && (step.Failure? ==> r == Failure(step.error))
            && (step.Success? ==> r.Success? && step.value == RangeState(ctx.internalTypes, cases + [r.value]))
  {
    ghost var before := RangeState(ctx.internalTypes, cases);
    var rangeName := node.entryNames[index];
    var typeIndex := node.Entry(index, 1);
    if !(typeIndex.Some? && typeIndex.value.IntValue?) {
      return Failure(NotAnInteger(index, 1));
    }
    if typeIndex.value.i !in node.typeNames {
      return Failure(UnknownTypeIndex(typeIndex.value.i));
    }
    var typeName := node.typeNames[typeIndex.value.i];
    var resolved := ctx.GetValidTypeInfos(typeName, []);
    if resolved.Failure? {
      return Failure(resolved.error);
    }
    var typeInfos := resolved.value;
    ghost var resolvedCache := ctx.internalTypes;
    ctx.internalTypes := ctx.internalTypes[rangeName := PseudoType(typeInfos, num)];
    var minValue := node.Entry(index, 2);
    var maxValue := node.Entry(index, 3);
    if !(minValue.Some? && minValue.value.IntValue?) {
      return Failure(NotAnInteger(index, 2));
    }
    if !(maxValue.Some? && maxValue.value.IntValue?) {
      return Failure(NotAnInteger(index, 3));
    }
    var c := RangeCase(num, index, rangeName, typeInfos, minValue.value.i, maxValue.value.i);
    StepMatched(node, before, index, typeIndex.value.i, resolvedCache, c);
    return Success(c);
  }

  /** A fresh context holding the node's metadata and default string size. */
  method NewNodeContext(node: NodeProtocol) returns (ctx: CFileContext)
    ensures fresh(ctx)
    ensures ctx.data == Metadata(node) && ctx.internalTypes == map[] && ctx.defaultStringSize == node.defaultStringSize
  {
    ctx := new CFileContext(map[]);
    ctx.SetItem("maxPDOtransmit", MetaInt(0));
    ctx.SetItem(NODE_NAME_KEY, MetaStr(node.name));
    ctx.SetItem("NodeID", MetaInt(node.id));
    ctx.SetItem("NodeType", MetaStr(node.nodeType));
    ctx.SetItem("Description", MetaStr(if node.description.Some? then node.description.value else ""));
    ctx.SetItem("iam_a_slave", MetaInt(if node.nodeType == "slave" then 1 else 0));
    ctx.defaultStringSize := node.defaultStringSize;
  }

  /** Appends the defines, the function header formatted from the context, the
      EMC case, the range cases and the function's end. */
  method AssembleValueRanges(valueRangeContent: Text, strDefine: Text, strSwitch: Text,
                             ghost cases: seq<RangeCase>, ghost nodeName: string)
    requires valueRangeContent.text == ""
    requires NODE_NAME_KEY in valueRangeContent.context.data
    requires valueRangeContent.context.data[NODE_NAME_KEY] == MetaStr(nodeName)
    requires strDefine.text == EMC_DEFINE + Defines(cases)
    requires strSwitch.text == EMC_CASE + Cases(cases)
    requires valueRangeContent != strDefine && valueRangeContent != strSwitch
    modifies valueRangeContent
    ensures valueRangeContent.text == TableText(nodeName, cases)
  {
    ghost var defines := strDefine.text;
    valueRangeContent.Append(strDefine.text);
    assert valueRangeContent.text == defines by {
      assert "" + defines == defines;
    }
    HeaderFormats(valueRangeContent.context.data);
    ghost var header := HeaderText(nodeName);
    assert FormatTemplate(HEADER_TEMPLATE, valueRangeContent.context.data) == Success(header);
    ghost var beforeHeader := valueRangeContent.text;
    var formatted := valueRangeContent.AppendFormatted(HEADER_TEMPLATE);
    assert formatted;
    assert valueRangeContent.text == beforeHeader + header;
    ghost var part := valueRangeContent.text;
    valueRangeContent.Append(SWITCH_OPEN);
    valueRangeContent.Append(strSwitch.text);
    valueRangeContent.Append(FUNCTION_END);
    assert valueRangeContent.text == part + SWITCH_OPEN + (EMC_CASE + Cases(cases)) + FUNCTION_END;
  }

  method SetupCFileContext(node: NodeProtocol) returns (r: Result<Generated, Error>)
    requires node.Valid()
    ensures ValueRanges(node).Failure? ==> r == Failure(ValueRanges(node).error)
    ensures ValueRanges(node).Success? ==>
              && r.Success?
              && var g := r.value;
              && var st := ValueRanges(node).value;
              && fresh(g.ctx) && fresh(g.valueRangeContent)
              && g.ctx.data == Metadata(node)
              && g.ctx.internalTypes == st.cache
              && g.ctx.defaultStringSize == node.defaultStringSize
              && g.listIndex == Band(node.indexes, 0x1000, 0xFFFF)
              && g.communicationList == Band(node.indexes, 0x1000, 0x11FF)
              && g.variableList == Band(node.indexes, 0x2000, 0xBFFF)
              && g.valueRangeContent.context == g.ctx
              && g.valueRangeContent.text == TableText(node.name, st.cases)
  {
    var ctx := NewNodeContext(node);

    var rangeList := RangeBand(node);
    var listIndex := Band(node.indexes, 0x1000, 0xFFFF);
    var communicationList := Band(node.indexes, 0x1000, 0x11FF);
    var variableList := Band(node.indexes, 0x2000, 0xBFFF);

    var valueRangeContent := ctx.NewText("");
    var strDefine := ctx.NewText(EMC_DEFINE);
    var strSwitch := ctx.NewText(EMC_CASE);
    ctx.internalTypes := ctx.internalTypes["valueRange_EMC" := EMC_TYPE];
    var num := 0;
    assert rangeList[0..] == rangeList;
    ghost var cases: seq<RangeCase> := [];
    for i := 0 to |rangeList|
      invariant ctx.data == Metadata(node) && ctx.defaultStringSize == node.defaultStringSize
      invariant num == |cases|
      invariant InBand(node, rangeList[i..])
      invariant ValueRanges(node) == BuildRanges(node, RangeState(ctx.internalTypes, cases), rangeList[i..])
      invariant strDefine.text == EMC_DEFINE + Defines(cases)
      invariant strSwitch.text == EMC_CASE + Cases(cases)
      invariant valueRangeContent.text == "" && valueRangeContent.context == ctx
      invariant valueRangeContent != strDefine && valueRangeContent != strSwitch && strDefine != strSwitch
    {
      var index := rangeList[i];
      InBandSuffix(node, rangeList, i + 1);
      assert rangeList[i..][0] == index && rangeList[i..][1..] == rangeList[i + 1..];
      var rangeName := node.entryNames[index];
      ghost var before := RangeState(ctx.internalTypes, cases);
      if MatchesRange(rangeName) {
        num := num + 1;
        var registered := RegisterRange(ctx, node, index, num, cases);
        if registered.Failure? {
          WalkStops(node, before, rangeList[i..], registered.error);
          return Failure(registered.error);
        }
        var c := registered.value;
        AppendDefine(strDefine, EMC_DEFINE, cases, c);
        AppendCase(strSwitch, EMC_CASE, cases, c);
        cases := cases + [c];
      }
    }

    assert rangeList[|rangeList|..] == [];
    assert ValueRanges(node) == Success(RangeState(ctx.internalTypes, cases));
    AssembleValueRanges(valueRangeContent, strDefine, strSwitch, cases, node.name);
    return Success(Generated(ctx, listIndex, variableList, communicationList, valueRangeContent));
  }

  /** A node with the one range entry `UNS8[0-100]` at index 0x10, of type
      UNSIGNED8 (type index 5), with bounds 0 and 100. */
  function OneRangeNode(): NodeProtocol {
    NodeProtocol("Dev", 1, "slave", None, 10, [0x10], map[0x10 := "UNS8[0-100]"],
      map[(0x10, 1) := IntValue(5), (0x10, 2) := IntValue(0), (0x10, 3) := IntValue(100)],
      map[5 := "UNSIGNED8"])
  }

  /** A band of one entry whose step succeeds ends with that step's state. */
  lemma WalkOfOne(node: NodeProtocol, st: RangeState, index: int)
    requires index in node.entryNames && 0 <= index
    requires RangeStep(node, st, index).Success?
    ensures BuildRanges(node, st, [index]) == RangeStep(node, st, index)
  {
    assert [index][1..] == [];
  }

  /** The node is valid and its range band is its one index. */
  lemma OneRangeBand(node: NodeProtocol)
    requires node == OneRangeNode()
    ensures node.Valid() && RangeBand(node) == [0x10]
  {
    assert node.indexes[1..] == [];
  }

  /** `UNSIGNED8` resolves, against the initial cache, to an unsigned UNS8. */
  lemma OneRangeBase(cache: map<string, TypeInfos>)
    requires cache == InitialState().cache
    ensures Resolve(cache, 10, "UNSIGNED8", []).Success?
    ensures Resolve(cache, 10, "UNSIGNED8", []).value.0 == TypeInfos("UNS8", None, "uint8", true)
  {
    assert "UNSIGNED" + "8" + "" == "UNSIGNED8";
    UnsignedNames(cache, 10, "8", "", []);
    assert "UNS" + "8" == "UNS8" && "uint" + "8" == "uint8";
  }

  /** The fields of the example node's entry. */
  lemma OneRangeFields(node: NodeProtocol)
    requires node == OneRangeNode()
    ensures 0x10 in node.entryNames && node.entryNames[0x10] == "UNS8[0-100]"
    ensures node.Entry(0x10, 1) == Some(IntValue(5)) && 5 in node.typeNames && node.typeNames[5] == "UNSIGNED8"
    ensures node.Entry(0x10, 2) == Some(IntValue(0)) && node.Entry(0x10, 3) == Some(IntValue(100))
    ensures node.defaultStringSize == 10
  {
  }

  /** The walk over a range band of one matching entry whose fields are
      integers and whose type resolves gives that entry's case, numbered 1. */
  lemma SingleRangeWalk(node: NodeProtocol, index: int, t: int, cache: map<string, TypeInfos>, c: RangeCase)
    requires node.Valid() && RangeBand(node) == [index]
    requires index in node.entryNames && 0 <= index && MatchesRange(node.entryNames[index])
    requires node.Entry(index, 1) == Some(IntValue(t)) && t in node.typeNames
    requires Resolve(InitialState().cache, node.defaultStringSize, node.typeNames[t], []) == Success((c.base, cache))
    requires node.Entry(index, 2) == Some(IntValue(c.min)) && node.Entry(index, 3) == Some(IntValue(c.max))
    requires c.num == 1 && c.index == index && c.name == node.entryNames[index]
    ensures ValueRanges(node) == Success(RangeState(cache[c.name := PseudoType(c.base, 1)], [c]))
  {
    var st := InitialState();
    StepMatched(node, st, index, t, cache, c);
    WalkOfOne(node, st, index);
    assert st.cases + [c] == [c];
    assert ValueRanges(node) == BuildRanges(node, st, [index]);
  }

  /** The walk over that node succeeds with the one case numbered 1, its base
      type resolved from `UNSIGNED8`. */
  lemma OneRangeWalk(node: NodeProtocol)
    requires node == OneRangeNode()
    ensures node.Valid()
    ensures ValueRanges(node).Success?
    ensures ValueRanges(node).value.cases == [RangeCase(1, 0x10, "UNS8[0-100]", TypeInfos("UNS8", None, "uint8", true), 0, 100)]
  {
    OneRangeBand(node);
    OneRangeFields(node);
    RangeNameExample("UNS8[0-100]");
    var cache := InitialState().cache;
    OneRangeBase(cache);
    var resolved := Resolve(cache, 10, "UNSIGNED8", []).value;
    var c := RangeCase(1, 0x10, "UNS8[0-100]", TypeInfos("UNS8", None, "uint8", true), 0, 100);
    SingleRangeWalk(node, 0x10, 5, resolved.1, c);
  }

  /** The decimal and hexadecimal texts the example's lines use. */
  lemma ExampleNumbers()
    ensures IntToDecimal(0) == "0" && IntToDecimal(1) == "1" && IntToDecimal(100) == "100"
    ensures Hex2(0x10, true) == "10"
  {
    assert NatToDigits(10, 10, true) == NatToDigits(1, 10, true) + "0";
    assert NatToDigits(100, 10, true) == NatToDigits(10, 10, true) + "0";
    assert NatToDigits(0x10, 16, true) == NatToDigits(1, 16, true) + "0";
  }

  /** The texts of that case: its `#define` line, and a case block whose low
      check is left out (unsigned, minimum 0) and whose high check is against 100. */
  lemma OneRangeText(c: RangeCase)
    requires c == RangeCase(1, 0x10, "UNS8[0-100]", TypeInfos("UNS8", None, "uint8", true), 0, 100)
    ensures DefineLine(c) ==
              "\n#define valueRange_" + "1" + " 0x" + "10" + " /* Type " + "UNS8" + ", " + "0" + " < value < " + "100" + " */"
    ensures CaseBlock(c) ==
              "    case valueRange_" + "1" + ":\n" + LOW_IGNORED_LINE
              + ("      if (*(" + "UNS8" + "*)value > (" + "UNS8" + ")" + "100" + ") return OD_VALUE_TOO_HIGH;\n")
              + "    break;\n"
  {
    ExampleNumbers();
    assert CaseChecks(c) == [LowIgnored, TooHigh(100)];
  }

  /** The table of a single case holds its `#define` line and its case block. */
  lemma TableOfOne(nodeName: string, c: RangeCase)
    ensures TableText(nodeName, [c]) ==
              EMC_DEFINE + DefineLine(c) + HeaderText(nodeName) + SWITCH_OPEN + (EMC_CASE + CaseBlock(c)) + FUNCTION_END
  {
    assert [c][..0] == [];
    assert Defines([c]) == DefineLine(c);
    assert Cases([c]) == CaseBlock(c);
  }
}
