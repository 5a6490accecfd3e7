/** `convert_from_canopen_to_c_type`: the C type of a generator type tag. */
module CTypes {
  import opened Strings
  import opened Types
  import opened TypeResolver

  const C_TYPES: map<string, string> := map[
    "boolean" := "bool",
    "int8" := "int8_t", "int16" := "int16_t", "int32" := "int32_t",
    "int40" := "int64_t", "int48" := "int64_t", "int56" := "int64_t", "int64" := "int64_t",
    "uint8" := "uint8_t", "uint16" := "uint16_t", "uint32" := "uint32_t",
    "uint40" := "uint64_t", "uint48" := "uint64_t", "uint56" := "uint64_t", "uint64" := "uint64_t",
    "real32" := "float", "real64" := "double"]

  function ConvertFromCanopenToCType(key: string): (ctype: string)
    ensures ctype in {"bool", "int8_t", "int16_t", "int32_t", "int64_t", "uint8_t", "uint16_t", "uint32_t",
                      "uint64_t", "float", "double", "dummy"}
  {
    if key in C_TYPES then C_TYPES[key] else "dummy"
  }

  /** The 40-, 48- and 56-bit widths widen to the 64-bit C types; any tag outside
      the table, 24-bit ones included, gives `dummy`. */
  lemma CTypeTable(key: string)
    ensures ConvertFromCanopenToCType(key) == "int64_t" <==> key in {"int40", "int48", "int56", "int64"}
    ensures ConvertFromCanopenToCType(key) == "uint64_t" <==> key in {"uint40", "uint48", "uint56", "uint64"}
    ensures ConvertFromCanopenToCType(key) == "bool" <==> key == "boolean"
    ensures ConvertFromCanopenToCType(key) == "float" <==> key == "real32"
    ensures ConvertFromCanopenToCType(key) == "double" <==> key == "real64"
    ensures ConvertFromCanopenToCType(key) == "dummy" <==> key !in C_TYPES
    ensures key in {"int24", "uint24"} ==> ConvertFromCanopenToCType(key) == "dummy"
  {
  }

  /** The decimal text of the integer widths. */
  lemma WidthDigits(n: nat)
    requires IsIntegerWidth(n)
    ensures NatToDigits(n, 10, true) ==
              if n == 8 then "8" else if n == 16 then "16" else if n == 24 then "24"
              else if n == 32 then "32" else if n == 40 then "40" else if n == 48 then "48"
              else if n == 56 then "56" else "64"
  {
    assert n in {8, 16, 24, 32, 40, 48, 56, 64};
  }

  /** The C type of an integer tag `uintn` / `intn` for a width n written in decimal. */
  lemma IntegerTagCType(tag: string, n: nat)
    requires tag in {"uint", "int"} && IsIntegerWidth(n)
    ensures ConvertFromCanopenToCType(tag + NatToDigits(n, 10, true)) == "dummy" <==> n == 24
  {
    WidthDigits(n);
    TagCType(tag, NatToDigits(n, 10, true));
  }

  /** The same, for the width's digits `w`. */
  lemma TagCType(tag: string, w: string)
    requires tag in {"uint", "int"} && w in {"8", "16", "24", "32", "40", "48", "56", "64"}
    ensures ConvertFromCanopenToCType(tag + w) == "dummy" <==> w == "24"
  {
    if w == "8" { assert tag + w == if tag == "uint" then "uint8" else "int8"; }
    else if w == "16" { assert tag + w == if tag == "uint" then "uint16" else "int16"; }
    else if w == "24" { assert tag + w == if tag == "uint" then "uint24" else "int24"; }
    else if w == "32" { assert tag + w == if tag == "uint" then "uint32" else "int32"; }
    else if w == "40" { assert tag + w == if tag == "uint" then "uint40" else "int40"; }
    else if w == "48" { assert tag + w == if tag == "uint" then "uint48" else "int48"; }
    else if w == "56" { assert tag + w == if tag == "uint" then "uint56" else "int56"; }
    else { assert tag + w == if tag == "uint" then "uint64" else "int64"; }
  }

  /** Of the integer types the resolver accepts (written without leading zeros),
      exactly the 24-bit ones have no C type. */
  lemma ResolvedIntegerCTypes(cache: map<string, TypeInfos>, dss: int, prefix: string, n: nat)
    requires prefix in {"UNSIGNED", "INTEGER"}
    requires IsIntegerWidth(n)
    requires prefix + NatToDigits(n, 10, true) !in cache
    ensures var r := Resolve(cache, dss, prefix + NatToDigits(n, 10, true), []);
            r.Success? && (ConvertFromCanopenToCType(r.value.0.ctype) == "dummy" <==> n == 24)
  {
    var digits := NatToDigits(n, 10, true);
    DecimalDigits(n);
    DigitsRoundTrip(n, 10, true);
    assert prefix + digits == prefix + digits + "";
    if prefix == "UNSIGNED" {
      UnsignedNames(cache, dss, digits, "", []);
      IntegerTagCType("uint", n);
    } else {
      IntegerNames(cache, dss, digits, "", []);
      IntegerTagCType("int", n);
    }
  }
}
