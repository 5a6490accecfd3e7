/**
 * Resolution of a CANopen basic data-type name (UNSIGNEDn, INTEGERn, REALn,
 * VISIBLE_STRING, OCTET_STRING, DOMAIN, BOOLEAN) into a TypeInfos record, with
 * the memoisation rule of the context's type cache.
 */
module TypeResolver {
  import opened Wrappers
  import opened Strings
  import opened Types

  /** The type pattern `([_A-Z]*)([0-9]*)`, matched at the start of the name:
      the maximal leading run of `[_A-Z]` and the maximal run of digits after it.
      The pattern also matches the empty string, so the split never fails. */
  function SplitTypeName(name: string): (parts: (string, string))
    ensures All(IsTypeChar, parts.0) && All(IsDigit, parts.1)
    ensures |parts.0| + |parts.1| <= |name| && name[..|parts.0| + |parts.1|] == parts.0 + parts.1
  {
    var u := Span(IsTypeChar, name);
    var d := Span(IsDigit, name[u..]);
    assert name[..u + d] == name[..u] + name[u..][..d];
    (name[..u], name[u..][..d])
  }

  /** The split is unique: any name written as a `[_A-Z]` run, a digit run and a
      rest that neither run could have absorbed splits into exactly those runs. */
  lemma SplitTypeNameOf(u: string, d: string, rest: string)
    requires All(IsTypeChar, u) && All(IsDigit, d)
    requires d != [] ==> rest == [] || !IsDigit(rest[0])
    requires d == [] ==> rest == [] || (!IsDigit(rest[0]) && !IsTypeChar(rest[0]))
    ensures SplitTypeName(u + d + rest) == (u, d)
  {
    var name := u + d + rest;
    assert name == u + (d + rest);
    SpanOf(IsTypeChar, u, d + rest);
    assert name[|u|..] == d + rest;
    SpanOf(IsDigit, d, rest);
    assert name[..|u|] == u;
    assert (d + rest)[..|d|] == d;
  }

  /** The widths `[i * 8 for i in range(1, 9)]`. */
  predicate IsIntegerWidth(n: nat) {
    n in {8, 16, 24, 32, 40, 48, 56, 64}
  }

  predicate IsStringPrefix(prefix: string) {
    prefix == "VISIBLE_STRING" || prefix == "OCTET_STRING"
  }

  /** Python's `max(a, b)`. */
  function Max(a: int, b: int): int {
    if a < b then b else a
  }

  /** `size = base; for item in items: size = max(size, len(item))`. */
  function LongestItem(base: int, items: seq<string>): (size: int)
    ensures base <= size
    ensures forall i :: 0 <= i < |items| ==> |items[i]| <= size
    ensures size == base || exists i :: 0 <= i < |items| && size == |items[i]|
  {
    if items == [] then base
    else
      var front := LongestItem(base, items[..|items| - 1]);
      assert forall i :: 0 <= i < |items| - 1 ==> items[..|items| - 1][i] == items[i];
      Max(front, |items[|items| - 1]|)
  }

  /** The uncached branch of the resolver: what a type name denotes. Every
      failure of the source (the final `else` and `int("")` on a prefix with no
      digits) is the one InvalidType failure. */
  function Classify(typename: string, defaultStringSize: int, items: seq<string>): (r: Result<TypeInfos, Error>)
    ensures r.Failure? ==> r.error == InvalidType(typename)
    ensures r.Success? ==> (r.value.size.Some? <==> r.value.ctype in {"visible_string", "domain"})
    ensures r.Success? ==> (r.value.isUnsigned <==> SplitTypeName(typename).0 == "UNSIGNED")
  {
    ClassifyParts(SplitTypeName(typename), typename, defaultStringSize, items)
  }

  /** The `elif` chain on the two groups of the type pattern. */
  function ClassifyParts(parts: (string, string), typename: string, defaultStringSize: int, items: seq<string>)
    : (r: Result<TypeInfos, Error>)
    ensures r.Failure? ==> r.error == InvalidType(typename)
    ensures r.Success? ==> (r.value.size.Some? <==> r.value.ctype in {"visible_string", "domain"})
    ensures r.Success? ==> (r.value.isUnsigned <==> parts.0 == "UNSIGNED")
  {
    var (prefix, digits) := parts;
    var width := DigitsValue(digits, 10);
    assert ("uint" + digits)[0] == 'u' && ("int" + digits)[0] == 'i' && ("real" + digits)[0] == 'r';
    if prefix == "UNSIGNED" then
      if digits != [] && IsIntegerWidth(width) then Success(TypeInfos("UNS" + digits, None, "uint" + digits, true))
      else Failure(InvalidType(typename))
    else if prefix == "INTEGER" then
      if digits != [] && IsIntegerWidth(width) then Success(TypeInfos("INTEGER" + digits, None, "int" + digits, false))
      else Failure(InvalidType(typename))
    else if prefix == "REAL" then
      if digits != [] && (width == 32 || width == 64) then Success(TypeInfos("REAL" + digits, None, "real" + digits, false))
      else Failure(InvalidType(typename))
    else if IsStringPrefix(prefix) then
      var size := LongestItem(defaultStringSize, items);
      Success(TypeInfos("UNS8", Some(if digits != [] then Max(size, width) else size), "visible_string", false))
    else if prefix == "DOMAIN" then
      Success(TypeInfos("UNS8", Some(LongestItem(0, items)), "domain", false))
    else if prefix == "BOOLEAN" then
      Success(TypeInfos("UNS8", None, "boolean", false))
    else
      Failure(InvalidType(typename))
  }

  /** String and domain kinds are recomputed on every call, all others are cached. */
  predicate Cacheable(info: TypeInfos) {
    info.ctype != "visible_string" && info.ctype != "domain"
  }

  /** One call of the resolver against the cache `cache`: the record it returns
      and the cache after the call. The cache is only ever extended, and an entry
      for the name, once present, is what the call returns. */
  function Resolve(cache: map<string, TypeInfos>, defaultStringSize: int, typename: string, items: seq<string>)
    : (r: Result<(TypeInfos, map<string, TypeInfos>), Error>)
    ensures typename in cache ==> r == Success((cache[typename], cache))
    ensures r.Success? ==> forall k :: k in cache ==> k in r.value.1 && r.value.1[k] == cache[k]
    ensures r.Success? ==> r.value.1.Keys == cache.Keys + (if Cacheable(r.value.0) then {typename} else {})
    ensures r.Success? && typename in r.value.1 ==> r.value.1[typename] == r.value.0
    ensures r.Failure? ==> r.error == InvalidType(typename)
  {
    if typename in cache then Success((cache[typename], cache))
    else
      match Classify(typename, defaultStringSize, items)
      case Failure(e) => Failure(e)
      case Success(info) => Success((info, if Cacheable(info) then cache[typename := info] else cache))
  }

  /** Resolving a cached kind twice gives the same record and leaves the cache as
      the first call left it. */
  lemma ResolveIdempotent(cache: map<string, TypeInfos>, dss: int, typename: string, items: seq<string>, items': seq<string>)
    requires Resolve(cache, dss, typename, items).Success?
    requires Cacheable(Resolve(cache, dss, typename, items).value.0)
    ensures var (info, cache') := Resolve(cache, dss, typename, items).value;
            Resolve(cache', dss, typename, items') == Success((info, cache'))
  {
  }

  /** `UNSIGNEDn` (followed by anything that is not a digit) resolves exactly when
      n is one of 8, 16, ..., 64, to ("UNSn", None, "uintn", unsigned). */
  lemma UnsignedNames(cache: map<string, TypeInfos>, dss: int, digits: string, rest: string, items: seq<string>)
    requires All(IsDigit, digits) && digits != []
    requires rest == [] || !IsDigit(rest[0])
    requires "UNSIGNED" + digits + rest !in cache
    ensures var r := Resolve(cache, dss, "UNSIGNED" + digits + rest, items);
            (r.Success? <==> IsIntegerWidth(DigitsValue(digits, 10))) &&
            (r.Success? ==> r.value.0 == TypeInfos("UNS" + digits, None, "uint" + digits, true))
  {
    var name := "UNSIGNED" + digits + rest;
    SplitTypeNameOf("UNSIGNED", digits, rest);
    UnsignedParts(digits, name, dss, items);
  }

  lemma UnsignedParts(digits: string, name: string, dss: int, items: seq<string>)
    requires digits != []
    ensures ClassifyParts(("UNSIGNED", digits), name, dss, items) ==
              if IsIntegerWidth(DigitsValue(digits, 10)) then Success(TypeInfos("UNS" + digits, None, "uint" + digits, true))
              else Failure(InvalidType(name))
  {
  }

  /** `INTEGERn` resolves exactly when n is one of 8, 16, ..., 64, to
      ("INTEGERn", None, "intn", signed). */
  lemma IntegerNames(cache: map<string, TypeInfos>, dss: int, digits: string, rest: string, items: seq<string>)
    requires All(IsDigit, digits) && digits != []
    requires rest == [] || !IsDigit(rest[0])
    requires "INTEGER" + digits + rest !in cache
    ensures var r := Resolve(cache, dss, "INTEGER" + digits + rest, items);
            (r.Success? <==> IsIntegerWidth(DigitsValue(digits, 10))) &&
            (r.Success? ==> r.value.0 == TypeInfos("INTEGER" + digits, None, "int" + digits, false))
  {
    var name := "INTEGER" + digits + rest;
    SplitTypeNameOf("INTEGER", digits, rest);
    IntegerParts(digits, name, dss, items);
  }

  lemma IntegerParts(digits: string, name: string, dss: int, items: seq<string>)
    requires digits != []
    ensures ClassifyParts(("INTEGER", digits), name, dss, items) ==
              if IsIntegerWidth(DigitsValue(digits, 10)) then Success(TypeInfos("INTEGER" + digits, None, "int" + digits, false))
              else Failure(InvalidType(name))
  {
    assert "INTEGER"[0] != "UNSIGNED"[0];
  }

  /** `REALn` resolves exactly when n is 32 or 64. */
  lemma RealNames(cache: map<string, TypeInfos>, dss: int, digits: string, rest: string, items: seq<string>)
    requires All(IsDigit, digits) && digits != []
    requires rest == [] || !IsDigit(rest[0])
    requires "REAL" + digits + rest !in cache
    ensures var r := Resolve(cache, dss, "REAL" + digits + rest, items);
            (r.Success? <==> DigitsValue(digits, 10) in {32, 64}) &&
            (r.Success? ==> r.value.0 == TypeInfos("REAL" + digits, None, "real" + digits, false))
  {
    var name := "REAL" + digits + rest;
    SplitTypeNameOf("REAL", digits, rest);
    RealParts(digits, name, dss, items);
  }

  lemma RealParts(digits: string, name: string, dss: int, items: seq<string>)
    requires digits != []
    ensures ClassifyParts(("REAL", digits), name, dss, items) ==
              if DigitsValue(digits, 10) in {32, 64} then Success(TypeInfos("REAL" + digits, None, "real" + digits, false))
              else Failure(InvalidType(name))
  {
  }

  /** A numeric prefix without a width (`UNSIGNED`, `INTEGER`, `REAL` followed by a
      non-digit) fails, as `int("")` does. */
  lemma NumericPrefixWithoutWidth(cache: map<string, TypeInfos>, dss: int, prefix: string, rest: string, items: seq<string>)
    requires prefix in {"UNSIGNED", "INTEGER", "REAL"}
    requires rest == [] || (!IsDigit(rest[0]) && !IsTypeChar(rest[0]))
    requires prefix + rest !in cache
    ensures Resolve(cache, dss, prefix + rest, items) == Failure(InvalidType(prefix + rest))
  {
    var name := prefix + rest;
    assert prefix + [] + rest == name;
    SplitTypeNameOf(prefix, [], rest);
    NumericWithoutDigits(prefix, name, dss, items);
  }

  lemma NumericWithoutDigits(prefix: string, name: string, dss: int, items: seq<string>)
    requires prefix in {"UNSIGNED", "INTEGER", "REAL"}
    ensures ClassifyParts((prefix, []), name, dss, items) == Failure(InvalidType(name))
  {
  }

  /** VISIBLE_STRING and OCTET_STRING: UNS8 bytes of size max(default string
      size, longest item, explicit width if any), never cached. */
  lemma StringNames(cache: map<string, TypeInfos>, dss: int, prefix: string, digits: string, rest: string, items: seq<string>)
    requires IsStringPrefix(prefix)
    requires All(IsDigit, digits)
    requires digits != [] ==> rest == [] || !IsDigit(rest[0])
    requires digits == [] ==> rest == [] || (!IsDigit(rest[0]) && !IsTypeChar(rest[0]))
    requires prefix + digits + rest !in cache
    ensures var size := LongestItem(dss, items);
            Resolve(cache, dss, prefix + digits + rest, items) ==
              Success((TypeInfos("UNS8", Some(if digits == [] then size else Max(size, DigitsValue(digits, 10))), "visible_string", false), cache))
  {
    var name := prefix + digits + rest;
    SplitTypeNameOf(prefix, digits, rest);
    StringParts(prefix, digits, name, dss, items);
  }

  lemma StringParts(prefix: string, digits: string, name: string, dss: int, items: seq<string>)
    requires IsStringPrefix(prefix)
    ensures var size := LongestItem(dss, items);
            ClassifyParts((prefix, digits), name, dss, items) ==
              Success(TypeInfos("UNS8", Some(if digits == [] then size else Max(size, DigitsValue(digits, 10))), "visible_string", false))
  {
    assert |prefix| >= 12;
  }

  /** DOMAIN: UNS8 bytes of size max(0, longest item), never cached; a width
      after the prefix is ignored. */
  lemma DomainNames(cache: map<string, TypeInfos>, dss: int, digits: string, rest: string, items: seq<string>)
    requires All(IsDigit, digits)
    requires digits != [] ==> rest == [] || !IsDigit(rest[0])
    requires digits == [] ==> rest == [] || (!IsDigit(rest[0]) && !IsTypeChar(rest[0]))
    requires "DOMAIN" + digits + rest !in cache
    ensures Resolve(cache, dss, "DOMAIN" + digits + rest, items) ==
              Success((TypeInfos("UNS8", Some(LongestItem(0, items)), "domain", false), cache))
  {
    var name := "DOMAIN" + digits + rest;
    SplitTypeNameOf("DOMAIN", digits, rest);
    DomainParts(digits, name, dss, items);
  }

  lemma DomainParts(digits: string, name: string, dss: int, items: seq<string>)
    ensures ClassifyParts(("DOMAIN", digits), name, dss, items) ==
              Success(TypeInfos("UNS8", Some(LongestItem(0, items)), "domain", false))
  {
  }

  /** BOOLEAN: a single unsigned byte tagged `boolean`, cached. */
  lemma BooleanNames(cache: map<string, TypeInfos>, dss: int, digits: string, rest: string, items: seq<string>)
    requires All(IsDigit, digits)
    requires digits != [] ==> rest == [] || !IsDigit(rest[0])
    requires digits == [] ==> rest == [] || (!IsDigit(rest[0]) && !IsTypeChar(rest[0]))
    requires "BOOLEAN" + digits + rest !in cache
    ensures var info := TypeInfos("UNS8", None, "boolean", false);
            Resolve(cache, dss, "BOOLEAN" + digits + rest, items) ==
              Success((info, cache["BOOLEAN" + digits + rest := info]))
  {
    var name := "BOOLEAN" + digits + rest;
    SplitTypeNameOf("BOOLEAN", digits, rest);
    BooleanParts(digits, name, dss, items);
  }

  lemma BooleanParts(digits: string, name: string, dss: int, items: seq<string>)
    ensures ClassifyParts(("BOOLEAN", digits), name, dss, items) == Success(TypeInfos("UNS8", None, "boolean", false))
  {
    assert "BOOLEAN"[0] != "INTEGER"[0];
  }

  /** Any other prefix fails, whatever follows it. */
  lemma OtherNamesFail(cache: map<string, TypeInfos>, dss: int, prefix: string, digits: string, rest: string, items: seq<string>)
    requires All(IsTypeChar, prefix) && All(IsDigit, digits)
    requires prefix !in {"UNSIGNED", "INTEGER", "REAL", "VISIBLE_STRING", "OCTET_STRING", "DOMAIN", "BOOLEAN"}
    requires digits != [] ==> rest == [] || !IsDigit(rest[0])
    requires digits == [] ==> rest == [] || (!IsDigit(rest[0]) && !IsTypeChar(rest[0]))
    requires prefix + digits + rest !in cache
    ensures Resolve(cache, dss, prefix + digits + rest, items) == Failure(InvalidType(prefix + digits + rest))
  {
    SplitTypeNameOf(prefix, digits, rest);
  }
}
