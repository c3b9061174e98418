/** The conversions of src/sqlite_integrated/utils.py: field specifications to lists, Python values
    to SQL literal text, and a dict to a `k = v` assignment list. */
module Utils {
  import opened Errors
  import opened Text
  import opened Data

  // ---------------------------------------------------------------------------------------
  // string_to_list

  /** A comma-separated field list with every space removed, split at the commas. */
  function StringToList(s: string): (r: seq<string>)
    ensures |r| == Count(s, ',') + 1
    ensures forall i :: 0 <= i < |r| ==> ' ' !in r[i] && ',' !in r[i]
    ensures Join(",", r) == Remove(s, ' ')
  {
    var t := Remove(s, ' ');
    SplitAvoids(t, ',', ' ');
    JoinSplit(t, ',');
    Split(t, ',')
  }

  /** A character that the string does not contain is in none of its pieces. */
  lemma {:induction false} SplitAvoids(s: string, c: char, d: char)
    requires d !in s
    ensures forall i :: 0 <= i < |Split(s, c)| ==> d !in Split(s, c)[i]
  {
    if |s| > 0 {
      assert d !in s[1..] by { assert forall k :: 0 <= k < |s[1..]| ==> s[1..][k] == s[k + 1]; }
      SplitAvoids(s[1..], c, d);
    }
  }

  /** What a caller may pass where a list of field names is expected: a comma-separated string,
      a list of names, or a value of any other type. */
  datatype FieldSpec = CommaSeparated(text: string) | FieldList(names: seq<string>) | NotStrOrList

  /** The field names a specification stands for; None for a value of another type. */
  function SpecFields(spec: FieldSpec): Option<seq<string>>
  {
    match spec
    case CommaSeparated(t) => Some(StringToList(t))
    case FieldList(names) => Some(names)
    case NotStrOrList => None
  }

  // ---------------------------------------------------------------------------------------
  // value_to_sql_value

  /** `s.replace("'", "''")`: every single quote doubled. */
  function DoubleQuotes(s: string): (r: string)
    ensures Count(r, '\'') == 2 * Count(s, '\'')
  {
    if |s| == 0 then ""
    else
      var head := if s[0] == '\'' then "''" else [s[0]];
      var rest := DoubleQuotes(s[1..]);
      CountAppend(head, rest, '\'');
      head + rest
  }

  lemma {:induction false} CountAppend(a: string, b: string, c: char)
    ensures Count(a + b, c) == Count(a, c) + Count(b, c)
    decreases |a|
  {
    if |a| > 0 {
      assert (a + b)[1..] == a[1..] + b;
      CountAppend(a[1..], b, c);
    } else {
      assert a + b == b;
    }
  }

  /** The SQL `<character string literal>` for `s`: quoted, with embedded quotes doubled. */
  function QuoteString(s: string): string
  {
    "'" + DoubleQuotes(s) + "'"
  }

  /** Reads an SQL character string literal: an opening quote, characters in which a quote only
      occurs doubled (standing for one quote), and a closing quote that ends the text. */
  function ParseQuoted(t: string): Option<string>
  {
    if |t| > 0 && t[0] == '\'' then ParseQuotedRest(t[1..]) else None
  }

  /** The part of a literal after its opening quote. */
  function ParseQuotedRest(t: string): Option<string>
    decreases |t|
  {
    if |t| == 0 then None
    else if t[0] == '\'' then
      if |t| == 1 then Some("")
      else if t[1] == '\'' then
        match ParseQuotedRest(t[2..])
        case Some(s) => Some("'" + s)
        case None => None
      else None
    else
      match ParseQuotedRest(t[1..])
      case Some(s) => Some([t[0]] + s)
      case None => None
  }

  lemma {:induction false} ParseDoubled(s: string)
    ensures ParseQuotedRest(DoubleQuotes(s) + "'") == Some(s)
  {
    if |s| > 0 {
      ParseDoubled(s[1..]);
      var t := DoubleQuotes(s) + "'";
      if s[0] == '\'' {
        assert t[2..] == DoubleQuotes(s[1..]) + "'";
      } else {
        assert t[1..] == DoubleQuotes(s[1..]) + "'";
      }
      assert [s[0]] + s[1..] == s;
    }
  }

  /** Quoting a string and reading the literal back gives the string. */
  lemma QuoteRoundTrip(s: string)
    ensures ParseQuoted(QuoteString(s)) == Some(s)
  {
    ParseDoubled(s);
    assert QuoteString(s)[1..] == DoubleQuotes(s) + "'";
  }

  lemma {:induction false} DoubledParsed(t: string, s: string)
    requires ParseQuotedRest(t) == Some(s)
    ensures t == DoubleQuotes(s) + "'"
    decreases |t|
  {
    if t[0] == '\'' {
      if |t| > 1 {
        var s' := ParseQuotedRest(t[2..]).value;
        DoubledParsed(t[2..], s');
        assert s == "'" + s';
        assert s[1..] == s';
        assert t == "''" + t[2..];
      }
    } else {
      var s' := ParseQuotedRest(t[1..]).value;
      DoubledParsed(t[1..], s');
      assert s == [t[0]] + s';
      assert s[1..] == s';
      assert t == [t[0]] + t[1..];
    }
  }

  /** Every literal the reader accepts is the quoting of what it reads: quoting is a bijection
      between strings and well-formed literals. */
  lemma QuoteOnlyForm(t: string, s: string)
    requires ParseQuoted(t) == Some(s)
    ensures t == QuoteString(s)
  {
    DoubledParsed(t[1..], s);
    assert t == "'" + t[1..];
  }

  /** `value_to_sql_value`: the SQL literal for a Python value, or TypeError for a list holding a
      non-string or a value of any other type. A bool is an int in Python and renders as
      `True`/`False`; a float renders as its `str()`. */
  function SqlLiteral(v: Value): (r: Result<string>)
    ensures r.Err? <==> v.Other? || (v.List? && exists i :: 0 <= i < |v.items| && !v.items[i].Text?)
    ensures r.Err? ==> r.error == TypeError
  {
    match v
    case Text(s) => Ok(QuoteString(s))
    case Bool(b) => Ok(if b then "True" else "False")
    case Int(i) => Ok(IntToDecimal(i))
    case Real(t) => Ok(t)
    case Null => Ok("null")
    case List(items) =>
      if forall i :: 0 <= i < |items| ==> items[i].Text? then
        Ok(Join(",", seq(|items|, i requires 0 <= i < |items| => items[i].s)))
      else Err(TypeError)
    case Other(_, _) => Err(TypeError)
  }

  /** The literal of a string reads back as the string, that of an integer as the integer; the
      `null` of None is no string's literal; and a non-empty list of comma-free strings is split
      back into its items at the commas. */
  lemma SqlLiteralReadsBack(v: Value)
    ensures v.Text? ==> ParseQuoted(SqlLiteral(v).value) == Some(v.s)
    ensures v.Int? ==> ParseInt(SqlLiteral(v).value) == Some(v.i)
    ensures v.Null? ==> SqlLiteral(v) == Ok("null") && ParseQuoted(SqlLiteral(v).value) == None
    ensures v.List? && SqlLiteral(v).Ok? && |v.items| > 0 && (forall i :: 0 <= i < |v.items| ==> ',' !in v.items[i].s) ==>
      Split(SqlLiteral(v).value, ',') == seq(|v.items|, i requires 0 <= i < |v.items| => v.items[i].s)
  {
    match v
    case Text(s) => QuoteRoundTrip(s);
    case Int(i) => IntToDecimalRoundTrip(i);
    case List(items) =>
      if SqlLiteral(v).Ok? && |items| > 0 && forall i :: 0 <= i < |items| ==> ',' !in items[i].s {
        var texts := seq(|items|, i requires 0 <= i < |items| => items[i].s);
        SplitJoin(texts, ',');
      }
    case _ =>
  }

  /** The literals for a sequence of values, in order; TypeError if any cannot be rendered. */
  function Literals(vs: seq<Value>): (r: Result<seq<string>>)
    ensures r.Ok? <==> forall i :: 0 <= i < |vs| ==> SqlLiteral(vs[i]).Ok?
    ensures r.Err? ==> r.error == TypeError
    ensures r.Ok? ==> |r.value| == |vs| && forall i :: 0 <= i < |vs| ==> r.value[i] == SqlLiteral(vs[i]).value
  {
    if |vs| == 0 then Ok([])
    else
      match SqlLiteral(vs[0])
      case Err(e) => Err(e)
      case Ok(first) =>
        match Literals(vs[1..])
        case Err(e) => Err(e)
        case Ok(rest) =>
          assert forall i :: 1 <= i < |vs| ==> vs[i] == vs[1..][i - 1];
          Ok([first] + rest)
  }

  // ---------------------------------------------------------------------------------------
  // dict_to_sql

  /** The `key = literal` items of a dict, in key order; TypeError if a value cannot be rendered. */
  function Assignments(data: seq<(string, Value)>): (r: Result<seq<string>>)
    ensures r.Ok? <==> forall i :: 0 <= i < |data| ==> SqlLiteral(data[i].1).Ok?
    ensures r.Err? ==> r.error == TypeError
    ensures r.Ok? ==> |r.value| == |data|
    ensures r.Ok? ==> forall i :: 0 <= i < |data| ==> r.value[i] == data[i].0 + " = " + SqlLiteral(data[i].1).value
  {
    if |data| == 0 then Ok([])
    else
      match SqlLiteral(data[0].1)
      case Err(e) => Err(e)
      case Ok(first) =>
        match Assignments(data[1..])
        case Err(e) => Err(e)
        case Ok(rest) =>
          assert forall i :: 1 <= i < |data| ==> data[i] == data[1..][i - 1];
          Ok([data[0].0 + " = " + first] + rest)
  }

  /** The text `dict_to_sql` produces: the assignments joined by ", ". */
  function AssignmentText(data: seq<(string, Value)>): Result<string>
  {
    match Assignments(data)
    case Ok(items) => Ok(Join(", ", items))
    case Err(e) => Err(e)
  }

  /** `dict_to_sql`: appends one `key = literal` item per key, then joins them. */
  method DictToSql(data: Dict) returns (r: Result<string>)
    ensures r == AssignmentText(data)
    ensures data == [] ==> r == Ok("")
  {
    var setList: seq<string> := [];
    var i := 0;
    while i < |data|
      invariant 0 <= i <= |data|
      invariant |setList| == i
      invariant forall j :: 0 <= j < i ==> SqlLiteral(data[j].1).Ok?
      invariant forall j :: 0 <= j < i ==> setList[j] == data[j].0 + " = " + SqlLiteral(data[j].1).value
    {
      var field := data[i].0;
      var lit := SqlLiteral(data[i].1);
      if lit.Err? {
        return Err(lit.error);
      }
      setList := setList + [field + " = " + lit.value];
      i := i + 1;
    }
    assert setList == Assignments(data).value;
    r := Ok(Join(", ", setList));
  }
}
