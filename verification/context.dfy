/**
 * The generation context: a metadata map, the type cache and the default string
 * size, plus the text accumulator that appends raw or template-formatted text.
 */
module Context {
  import opened Wrappers
  import opened Strings
  import opened Types
  import opened TypeResolver

  /** Class-level default of `default_string_size`. */
  const DEFAULT_STRING_SIZE := 10

  function Prepend(s: string, r: Result<string, Error>): (r': Result<string, Error>)
    ensures r'.Success? <==> r.Success?
    ensures r.Failure? ==> r' == r
    ensures r.Success? ==> r'.value == s + r.value
  {
    match r
    case Success(t) => Success(s + t)
    case Failure(e) => Failure(e)
  }

  /** The part of `str.format(**context)` the generator relies on: `{{` and `}}`
      stand for single braces, and `{key}` with `key` a keyword field name (a run
      of `[A-Za-z0-9_]` that is not all digits) stands for `str(context[key])`.
      A missing key fails; any other use of a brace is a template the model
      rejects. */
  function FormatTemplate(t: string, context: map<string, MetaValue>): (r: Result<string, Error>)
    ensures r.Failure? ==> r.error == BadTemplate || (r.error.MissingKey? && r.error.key !in context)
    decreases |t|
  {
    if t == [] then Success("")
    else if t[0] == '{' then
      if |t| >= 2 && t[1] == '{' then Prepend("{", FormatTemplate(t[2..], context))
      else
        var n := Span(IsWordChar, t[1..]);
        if n == 0 || 1 + n == |t| || t[1 + n] != '}' || All(IsDigit, t[1..1 + n]) then Failure(BadTemplate)
        else if t[1..1 + n] !in context then Failure(MissingKey(t[1..1 + n]))
        else Prepend(MetaText(context[t[1..1 + n]]), FormatTemplate(t[2 + n..], context))
    else if t[0] == '}' then
      if |t| >= 2 && t[1] == '}' then Prepend("}", FormatTemplate(t[2..], context))
      else Failure(BadTemplate)
    else Prepend([t[0]], FormatTemplate(t[1..], context))
  }

  predicate NoBraces(s: string) {
    '{' !in s && '}' !in s
  }

  /** Text without braces is copied verbatim. */
  lemma {:induction false} FormatPlain(p: string, rest: string, context: map<string, MetaValue>)
    requires NoBraces(p)
    ensures FormatTemplate(p + rest, context) == Prepend(p, FormatTemplate(rest, context))
    decreases |p|
  {
    if p != [] {
      assert (p + rest)[0] == p[0] && (p + rest)[1..] == p[1..] + rest;
      FormatPlain(p[1..], rest, context);
      var r := FormatTemplate(rest, context);
      if r.Success? {
        assert [p[0]] + (p[1..] + r.value) == p + r.value;
      }
    } else {
      assert p + rest == rest;
      var r := FormatTemplate(rest, context);
      if r.Success? {
        assert p + r.value == r.value;
      }
    }
  }

  /** A keyword field is replaced by the text of its value. */
  lemma FormatField(key: string, rest: string, context: map<string, MetaValue>)
    requires key != [] && All(IsWordChar, key) && !All(IsDigit, key)
    requires key in context
    ensures FormatTemplate("{" + key + "}" + rest, context) == Prepend(MetaText(context[key]), FormatTemplate(rest, context))
  {
    var t := "{" + key + "}" + rest;
    assert t[1..] == key + ("}" + rest);
    SpanOf(IsWordChar, key, "}" + rest);
    assert t[1..1 + |key|] == key;
    assert t[2 + |key|..] == rest;
  }

  /** The header template of the value-range function (a `%=` in the source). */
  const HEADER_TEMPLATE := HEADER_START + "{" + NODE_NAME_KEY + "}" + HEADER_END + "{{"
  const HEADER_START := "\nUNS32 "
  // Split in three so that `HeaderFormats` can show each short piece free of
  // braces; the verifier does not unfold `NoBraces` along the whole literal.
  const HEADER_END := "_valueRange" + "Test (UNS8 typeValue, " + "void * value)\n"
  const NODE_NAME_KEY := "NodeName"

  function HeaderText(nodeName: string): string {
    HEADER_START + nodeName + HEADER_END + "{"
  }

  /** A template made of plain text, one keyword field, plain text and an
      escaped brace formats to the texts around the field's value and one brace. */
  lemma FormatOneField(start: string, key: string, end: string, context: map<string, MetaValue>)
    requires NoBraces(start) && NoBraces(end)
    requires key != [] && All(IsWordChar, key) && !All(IsDigit, key) && key in context
    ensures FormatTemplate(start + "{" + key + "}" + end + "{{", context)
              == Success(start + MetaText(context[key]) + end + "{")
  {
    var field := "{" + key + "}";
    var value := MetaText(context[key]);
    var escaped := "{{";
    EscapedBrace(escaped, context);
    FormatPlain(end, escaped, context);
    assert FormatTemplate(end + escaped, context) == Success(end + "{");
    FormatField(key, end + escaped, context);
    assert FormatTemplate(field + (end + escaped), context) == Success(value + (end + "{"));
    FormatPlain(start, field + (end + escaped), context);
    Regroup(start, field, end, escaped);
    Regroup(start, value, end, "{");
    assert start + "{" + key + "}" == start + field;
  }

  lemma EscapedBrace(t: string, context: map<string, MetaValue>)
    requires t == "{{"
    ensures FormatTemplate(t, context) == Success("{")
  {
    assert t[2..] == [];
    assert "{" + "" == "{";
  }

  lemma Regroup(a: string, b: string, c: string, d: string)
    ensures a + b + c + d == a + (b + (c + d))
  {
  }

  /** Formatting the header substitutes the node name and un-doubles the brace. */
  lemma HeaderFormats(context: map<string, MetaValue>)
    requires NODE_NAME_KEY in context
    ensures FormatTemplate(HEADER_TEMPLATE, context) == Success(HeaderText(MetaText(context[NODE_NAME_KEY])))
  {
    assert NoBraces(HEADER_START);
    assert NoBraces(HEADER_END) by {
      assert NoBraces("_valueRange") && NoBraces("Test (UNS8 typeValue, ") && NoBraces("void * value)\n");
    }
    assert !IsDigit(NODE_NAME_KEY[0]);
    FormatOneField(HEADER_START, NODE_NAME_KEY, HEADER_END, context);
  }

  class CFileContext {
    var data: map<string, MetaValue>
    var internalTypes: map<string, TypeInfos>
    var defaultStringSize: int

    constructor (data: map<string, MetaValue>)
      ensures this.data == data && internalTypes == map[] && defaultStringSize == DEFAULT_STRING_SIZE
    {
      this.data := data;
      internalTypes := map[];
      defaultStringSize := DEFAULT_STRING_SIZE;
    }

    /** `ctx[key] = value` */
    method SetItem(key: string, value: MetaValue)
      modifies this`data
      ensures data == old(data)[key := value]
    {
      data := data[key := value];
    }

    /** `__copy__`: copies of the data and of the type cache. The default string
        size is not copied and is the class default in the copy. */
    method Copy() returns (c: CFileContext)
      ensures fresh(c)
      ensures c.data == data && c.internalTypes == internalTypes && c.defaultStringSize == DEFAULT_STRING_SIZE
    {
      c := new CFileContext(data);
      c.internalTypes := internalTypes;
    }

    /** `text(s)`: a new accumulator over this context. */
    method NewText(s: string) returns (t: Text)
      ensures fresh(t) && t.text == s && t.context == this
    {
      t := new Text(this, s);
    }

    /** `get_valid_type_infos(typename, items)`: a cached name is returned as
        stored; otherwise the name is classified, and cached unless it is a
        string or domain kind. A failure leaves the cache as it was. */
    method GetValidTypeInfos(typename: string, items: seq<string>) returns (r: Result<TypeInfos, Error>)
      modifies this`internalTypes
      ensures match Resolve(old(internalTypes), defaultStringSize, typename, items)
              case Success((info, cache)) => r == Success(info) && internalTypes == cache
              case Failure(e) => r == Failure(e) && internalTypes == old(internalTypes)
    {
      if typename in internalTypes {
        return Success(internalTypes[typename]);
      }
      var (prefix, digits) := SplitTypeName(typename);
      var typeInfos: TypeInfos;
      if prefix == "UNSIGNED" && digits != [] && IsIntegerWidth(DigitsValue(digits, 10)) {
        typeInfos := TypeInfos("UNS" + digits, None, "uint" + digits, true);
      } else if prefix == "INTEGER" && digits != [] && IsIntegerWidth(DigitsValue(digits, 10)) {
        typeInfos := TypeInfos("INTEGER" + digits, None, "int" + digits, false);
      } else if prefix == "REAL" && digits != [] && DigitsValue(digits, 10) in {32, 64} {
        typeInfos := TypeInfos(prefix + digits, None, "real" + digits, false);
      } else if prefix == "VISIBLE_STRING" || prefix == "OCTET_STRING" {
        var size := LongestOf(defaultStringSize, items);
        if digits != [] {
          size := Max(size, DigitsValue(digits, 10));
        }
        typeInfos := TypeInfos("UNS8", Some(size), "visible_string", false);
      } else if prefix == "DOMAIN" {
        var size := LongestOf(0, items);
        typeInfos := TypeInfos("UNS8", Some(size), "domain", false);
      } else if prefix == "BOOLEAN" {
        typeInfos := TypeInfos("UNS8", None, "boolean", false);
      } else {
        return Failure(InvalidType(typename));
      }
      if typeInfos.ctype != "visible_string" && typeInfos.ctype != "domain" {
        internalTypes := internalTypes[typename := typeInfos];
      }
      return Success(typeInfos);
    }
  }

  /** The size scan of the string and domain kinds: the longest of `base` and
      the lengths of the items. */
  method LongestOf(base: int, items: seq<string>) returns (size: int)
    ensures size == LongestItem(base, items)
  {
    size := base;
    for i := 0 to |items|
      invariant size == LongestItem(base, items[..i])
    {
      assert items[..i + 1][..i] == items[..i];
      size := Max(size, |items[i]|);
    }
    assert items[..|items|] == items;
  }

  /** The text accumulator: `+=` appends without formatting, `%=` appends a
      template formatted with the context's data, `+` makes a new accumulator. */
  class Text {
    var text: string
    const context: CFileContext

    constructor (context: CFileContext, text: string)
      ensures this.text == text && this.context == context
    {
      this.text := text;
      this.context := context;
    }

    /** `__iadd__` */
    method Append(s: string)
      modifies this
      ensures text == old(text) + s
    {
      text := text + s;
    }

    /** `__add__` */
    method Plus(s: string) returns (t: Text)
      ensures fresh(t) && t.text == text + s && t.context == context
    {
      t := new Text(context, text + s);
    }

    /** `__imod__`: on a template that does not format, `ok` is false (the source
        raises) and the text is unchanged. */
    method AppendFormatted(template: string) returns (ok: bool)
      modifies this
      ensures match FormatTemplate(template, context.data)
              case Success(s) => ok && text == old(text) + s
              case Failure(_) => !ok && text == old(text)
    {
      var r := FormatTemplate(template, context.data);
      if r.Success? {
        text := text + r.value;
      }
      ok := r.Success?;
    }
  }
}
