/**
 * The selection widget's markup: `getNameSelect` turns the ordered list of
 * (id, label) pairs from the location list into one HTML `<select>` string,
 * one `<option>` per pair in list order, the id as the option's value and the
 * label, unescaped, as its text.
 */
module NameSelect {
  import opened Wrappers
  import opened Decimal

  /** One entry of the location list: a numeric id and the label shown for it. */
  datatype NamePair = NamePair(id: int, name: string)

  /** The opening tag, `<select name="name" id="nameselect" class="select-internal">`, written in its four parts. */
  const SelectStart: string := "<select"
  const NameAttribute: string := " name=\"name\""
  const IdAttribute: string := " id=\"nameselect\""
  const ClassAttribute: string := " class=\"select-internal\">"
  const OpenTag: string := SelectStart + NameAttribute + IdAttribute + ClassAttribute
  const CloseTag: string := "</select>"
  const OptionOpen: string := "<option value=\""
  const ValueClose: string := "\">"
  const OptionClose: string := "</option>"

  /** The markup of one option: the id's decimal text as value, the label verbatim as text. */
  function OptionMarkup(p: NamePair): string {
    OptionOpen + IntToDecimal(p.id) + ValueClose + p.name + OptionClose
  }

  /** The options of all pairs, in list order. */
  function OptionsMarkup(ps: seq<NamePair>): string {
    ConcatMap(OptionMarkup, ps)
  }

  /** The texts `f` gives the elements of `xs`, one after the other in list order. */
  function ConcatMap<T>(f: T -> string, xs: seq<T>): string
    decreases |xs|
  {
    if xs == [] then "" else ConcatMap(f, xs[..|xs| - 1]) + f(xs[|xs| - 1])
  }

  lemma {:induction false} ConcatMapAppend<T>(f: T -> string, xs: seq<T>, ys: seq<T>)
    ensures ConcatMap(f, xs + ys) == ConcatMap(f, xs) + ConcatMap(f, ys)
    decreases |ys|
  {
    if ys == [] {
      assert xs + ys == xs;
    } else {
      var n := |ys| - 1;
      assert (xs + ys)[..|xs + ys| - 1] == xs + ys[..n];
      assert (xs + ys)[|xs + ys| - 1] == ys[n];
      ConcatMapAppend(f, xs, ys[..n]);
    }
  }

  /** The whole `<select>` element. */
  function SelectMarkup(ps: seq<NamePair>): string {
    OpenTag + OptionsMarkup(ps) + CloseTag
  }

  /** `Array.prototype.join('')`: the strings one after the other, with nothing between them. */
  function Join(parts: seq<string>): (r: string)
    ensures parts == [] ==> r == ""
    ensures |parts| == 1 ==> r == parts[0]
    decreases |parts|
  {
    if parts == [] then "" else Join(parts[..|parts| - 1]) + parts[|parts| - 1]
  }

  /** `Array.prototype.push` of one string: the joined text grows by exactly that string. */
  method Push(parts: seq<string>, x: string) returns (parts': seq<string>)
    ensures parts' == parts + [x]
    ensures Join(parts') == Join(parts) + x
  {
    parts' := parts + [x];
    assert parts'[..|parts'| - 1] == parts;
  }

  /** Joining two arrays one after the other joins each and concatenates the results. */
  lemma {:induction false} JoinAppend(a: seq<string>, b: seq<string>)
    ensures Join(a + b) == Join(a) + Join(b)
    decreases |b|
  {
    if b == [] {
      assert a + b == a;
    } else {
      var n := |b| - 1;
      assert (a + b)[..|a + b| - 1] == a + b[..n];
      assert (a + b)[|a + b| - 1] == b[n];
      JoinAppend(a, b[..n]);
    }
  }

  /**
   * `getNameSelect`: a builder array starts with the opening tag, five pieces
   * are pushed per pair and the closing tag last, and the array is joined.
   */
  method GetNameSelect(pairs: seq<NamePair>) returns (html: string)
    ensures html == SelectMarkup(pairs)
  {
    var builder := [OpenTag];
    assert Join(builder) == OpenTag by {
      assert builder[..0] == [];
    }
    for i := 0 to |pairs|
      invariant Join(builder) == OpenTag + OptionsMarkup(pairs[..i])
    {
      ghost var done := OptionsMarkup(pairs[..i]);
      builder := PushOption(builder, pairs[i]);
      OptionsMarkupSnoc(pairs, i);
      AppendThree(OpenTag, done, OptionMarkup(pairs[i]));
    }
    builder := Push(builder, CloseTag);
    html := Join(builder);
    assert pairs[..|pairs|] == pairs;
  }

  /** Regrouping used by the loop step; kept apart so that the loop's context does not weigh on it. */
  lemma AppendThree(x: string, a: string, b: string)
    ensures x + a + b == x + (a + b)
  {
  }

  /** Extending the list by pair `i` appends that pair's option. */
  lemma OptionsMarkupSnoc(ps: seq<NamePair>, i: nat)
    requires i < |ps|
    ensures OptionsMarkup(ps[..i + 1]) == OptionsMarkup(ps[..i]) + OptionMarkup(ps[i])
  {
    assert ps[..i + 1][..i] == ps[..i];
  }

  /** The five pushes of one loop iteration. */
  method PushOption(builder: seq<string>, p: NamePair) returns (builder': seq<string>)
    ensures Join(builder') == Join(builder) + OptionMarkup(p)
  {
    builder' := Push(builder, OptionOpen);
    builder' := Push(builder', IntToDecimal(p.id));
    builder' := Push(builder', ValueClose);
    builder' := Push(builder', p.name);
    builder' := Push(builder', OptionClose);
    ghost var x := Join(builder);
    assert x + OptionOpen + IntToDecimal(p.id) + ValueClose + p.name + OptionClose
        == x + (OptionOpen + IntToDecimal(p.id) + ValueClose + p.name + OptionClose);
  }

  /** An empty list gives an empty select element. */
  lemma EmptySelect()
    ensures SelectMarkup([]) == OpenTag + CloseTag
    ensures SelectMarkup([]) == "<select" + " name=\"name\"" + " id=\"nameselect\"" + " class=\"select-internal\">" + "</select>"
  {
  }

  /** The markup always opens with the fixed `<select>` tag and closes with `</select>`. */
  lemma SelectMarkupFraming(ps: seq<NamePair>)
    ensures |SelectMarkup(ps)| >= |OpenTag| + |CloseTag|
    ensures SelectMarkup(ps)[..|OpenTag|] == OpenTag
    ensures SelectMarkup(ps)[|SelectMarkup(ps)| - |CloseTag|..] == CloseTag
  {
    var m := SelectMarkup(ps);
    assert m == OpenTag + (OptionsMarkup(ps) + CloseTag);
    assert m[|m| - |CloseTag|..] == CloseTag;
  }

  /** The options of two lists one after the other are the options of their concatenation: input order is kept. */
  lemma OptionsMarkupConcat(ps: seq<NamePair>, qs: seq<NamePair>)
    ensures OptionsMarkup(ps + qs) == OptionsMarkup(ps) + OptionsMarkup(qs)
  {
    ConcatMapAppend(OptionMarkup, ps, qs);
  }

  /** Pair `i` contributes its option right after the options of the pairs before it. */
  lemma OptionAt(ps: seq<NamePair>, i: nat)
    requires i < |ps|
    ensures OptionsMarkup(ps) == OptionsMarkup(ps[..i]) + OptionMarkup(ps[i]) + OptionsMarkup(ps[i + 1..])
  {
    var front, back := ps[..i + 1], ps[i + 1..];
    assert OptionsMarkup(ps) == OptionsMarkup(front) + OptionsMarkup(back) by {
      assert ps == front + back;
      OptionsMarkupConcat(front, back);
    }
    OptionsMarkupSnoc(ps, i);
  }

  // ----- Counting option tags -----

  /** `s` starts with the seven characters `<option`. */
  predicate StartsWithOption(s: string) {
    && |s| >= 7
    && s[0] == '<' && s[1] == 'o' && s[2] == 'p' && s[3] == 't'
    && s[4] == 'i' && s[5] == 'o' && s[6] == 'n'
  }

  /** The number of positions in `s` at which `<option` starts. */
  function OptionStarts(s: string): nat
    decreases |s|
  {
    if s == [] then 0 else (if StartsWithOption(s) then 1 else 0) + OptionStarts(s[1..])
  }

  /** A string without '<' holds no `<option`. */
  lemma {:induction false} NoOptionWithoutAngle(s: string)
    requires '<' !in s
    ensures OptionStarts(s) == 0
  {
    if s != [] {
      assert s[0] != '<';
      NoOptionWithoutAngle(s[1..]);
    }
  }

  /** A string that starts with '<' not followed by 'o', and has no other '<', holds no `<option`. */
  lemma NoOptionAfterOpening(s: string)
    requires |s| >= 2 && s[1] != 'o' && '<' !in s[1..]
    ensures OptionStarts(s) == 0
  {
    NoOptionWithoutAngle(s[1..]);
  }

  /** A character a proper prefix of `<option` ends with: one of "<opti". */
  predicate CanEndPartial(c: char) {
    c == '<' || c == 'o' || c == 'p' || c == 't' || c == 'i'
  }

  /** A character that continues a proper prefix of `<option`: one of "optin". */
  predicate CanContinue(c: char) {
    c == 'o' || c == 'p' || c == 't' || c == 'i' || c == 'n'
  }

  /**
   * No `<option` straddles the seam of `a + b` when `a` does not end in a
   * character a partial match could end on, or `b` does not start with one
   * that could continue it; then the counts add up.
   */
  lemma {:induction false} OptionStartsConcat(a: string, b: string)
    requires a == [] || b == [] || !CanEndPartial(a[|a| - 1]) || !CanContinue(b[0])
    ensures OptionStarts(a + b) == OptionStarts(a) + OptionStarts(b)
    decreases |a|
  {
    if a == [] {
      assert a + b == b;
    } else {
      assert (a + b)[1..] == a[1..] + b;
      OptionStartsConcat(a[1..], b);
      var k := |a|;
      if k >= 7 {
        assert StartsWithOption(a + b) == StartsWithOption(a);
      } else if b != [] {
        // a match at the front of a + b would run from the last character of a into b
        assert (a + b)[k - 1] == a[k - 1] && (a + b)[k] == b[0];
      }
    }
  }

  /** Counts add up over three parts when a ends, and c starts, with a character no match can straddle. */
  lemma ThreePartCount(a: string, b: string, c: string)
    requires a != [] && !CanEndPartial(a[|a| - 1])
    requires c != [] && !CanContinue(c[0])
    ensures OptionStarts(a + b + c) == OptionStarts(a) + OptionStarts(b) + OptionStarts(c)
  {
    OptionStartsConcat(a, b);
    OptionStartsConcat(a + b, c);
  }

  /** Counts add up over four parts when none of the last three starts a continuation of a match. */
  lemma FourPartCount(a: string, b: string, c: string, d: string)
    requires b != [] && !CanContinue(b[0])
    requires c != [] && !CanContinue(c[0])
    requires d != [] && !CanContinue(d[0])
    ensures OptionStarts(a + b + c + d) == OptionStarts(a) + OptionStarts(b) + OptionStarts(c) + OptionStarts(d)
  {
    OptionStartsConcat(a, b);
    OptionStartsConcat(a + b, c);
    OptionStartsConcat(a + b + c, d);
  }

  /** The characters of the fixed pieces that the counting relies on. */
  lemma SelectStartChars()
    ensures |SelectStart| >= 2 && SelectStart[1] == 's' && '<' !in SelectStart[1..]
  {
    assert SelectStart[1..] == "select";
  }

  lemma AttributeChars()
    ensures NameAttribute != [] && NameAttribute[0] == ' ' && '<' !in NameAttribute
    ensures IdAttribute != [] && IdAttribute[0] == ' ' && '<' !in IdAttribute
    ensures ClassAttribute != [] && ClassAttribute[0] == ' ' && '<' !in ClassAttribute
    ensures ClassAttribute[|ClassAttribute| - 1] == '>'
  {
  }

  lemma OptionPieceChars()
    ensures StartsWithOption(OptionOpen) && OptionOpen[|OptionOpen| - 1] == '"' && '<' !in OptionOpen[1..]
    ensures ValueClose != [] && ValueClose[0] == '"' && ValueClose[|ValueClose| - 1] == '>' && '<' !in ValueClose
    ensures |OptionClose| >= 2 && OptionClose[0] == '<' && OptionClose[1] == '/' && '<' !in OptionClose[1..]
    ensures |CloseTag| >= 2 && CloseTag[0] == '<' && CloseTag[1] == '/' && '<' !in CloseTag[1..]
  {
    assert OptionOpen[1..] == "option value=\"";
    assert OptionClose[1..] == "/option>";
    assert CloseTag[1..] == "/select>";
  }

  /** The opening tag ends with '>'. */
  lemma OpenTagEnd()
    ensures OpenTag != [] && OpenTag[|OpenTag| - 1] == '>'
  {
    AttributeChars();
    var front := SelectStart + NameAttribute + IdAttribute;
    assert OpenTag == front + ClassAttribute;
  }

  /** The opening tag holds no `<option`. */
  lemma OpenTagCount()
    ensures OptionStarts(OpenTag) == 0
  {
    SelectStartChars();
    AttributeChars();
    NoOptionInTag(SelectStart, NameAttribute, IdAttribute, ClassAttribute);
  }

  /** A tag name with three attributes, none with a '<' after the tag's own, holds no `<option`. */
  lemma NoOptionInTag(start: string, a1: string, a2: string, a3: string)
    requires |start| >= 2 && start[1] != 'o' && '<' !in start[1..]
    requires a1 != [] && a1[0] == ' ' && '<' !in a1
    requires a2 != [] && a2[0] == ' ' && '<' !in a2
    requires a3 != [] && a3[0] == ' ' && '<' !in a3
    ensures OptionStarts(start + a1 + a2 + a3) == 0
  {
    NoOptionAfterOpening(start);
    NoOptionWithoutAngle(a1);
    NoOptionWithoutAngle(a2);
    NoOptionWithoutAngle(a3);
    FourPartCount(start, a1, a2, a3);
  }

  /** The `<option` starts in the five pieces of one option, given that the value text holds none. */
  lemma OptionPiecesCount(value: string, text: string)
    requires OptionStarts(value) == 0
    ensures OptionStarts(OptionOpen + value + ValueClose + text + OptionClose) == 1 + OptionStarts(text)
  {
    OptionPieceChars();
    FivePieceCount(OptionOpen, value, ValueClose, text, OptionClose);
  }

  /**
   * An element opening with `<option` and no other '<', a value without
   * `<option`, a separator and a closing tag, none of them able to join a
   * match across a seam, hold one `<option` besides those in the text.
   */
  lemma FivePieceCount(open: string, value: string, mid: string, text: string, close: string)
    requires StartsWithOption(open) && !CanEndPartial(open[|open| - 1]) && '<' !in open[1..]
    requires OptionStarts(value) == 0
    requires mid != [] && !CanContinue(mid[0]) && !CanEndPartial(mid[|mid| - 1]) && '<' !in mid
    requires |close| >= 2 && !CanContinue(close[0]) && close[1] != 'o' && '<' !in close[1..]
    ensures OptionStarts(open + value + mid + text + close) == 1 + OptionStarts(text)
  {
    var a1 := open + value;
    var a2 := a1 + mid;
    var a3 := a2 + text;
    assert OptionStarts(a1) == 1 by {
      NoOptionWithoutAngle(open[1..]);
      OptionStartsConcat(open, value);
    }
    assert OptionStarts(a2) == 1 by {
      NoOptionWithoutAngle(mid);
      OptionStartsConcat(a1, mid);
    }
    assert OptionStarts(a3) == 1 + OptionStarts(text) by {
      assert a2[|a2| - 1] == mid[|mid| - 1];
      OptionStartsConcat(a2, text);
    }
    NoOptionAfterOpening(close);
    OptionStartsConcat(a3, close);
  }

  /** The `<option` starts in one option: its own tag plus any inside the label. */
  lemma OptionMarkupCount(p: NamePair)
    ensures OptionStarts(OptionMarkup(p)) == 1 + OptionStarts(p.name)
  {
    var d := IntToDecimal(p.id);
    assert OptionStarts(d) == 0 by {
      assert '<' !in d by {
        forall i | 0 <= i < |d| ensures d[i] != '<' {
          assert d[i] == '-' || IsDecimalDigit(d[i]);
        }
      }
      NoOptionWithoutAngle(d);
    }
    OptionPiecesCount(d, p.name);
  }

  /** The total number of `<option` starts inside the labels. */
  function LabelOptionStarts(ps: seq<NamePair>): nat
    decreases |ps|
  {
    if ps == [] then 0 else LabelOptionStarts(ps[..|ps| - 1]) + OptionStarts(ps[|ps| - 1].name)
  }

  /** The options hold one `<option` per pair, besides any the labels themselves carry. */
  lemma {:induction false} OptionsMarkupCount(ps: seq<NamePair>)
    ensures OptionStarts(OptionsMarkup(ps)) == |ps| + LabelOptionStarts(ps)
    decreases |ps|
  {
    if ps != [] {
      var n := |ps| - 1;
      OptionsMarkupCount(ps[..n]);
      OptionMarkupCount(ps[n]);
      OptionPieceChars();
      assert OptionMarkup(ps[n])[0] == '<';
      OptionStartsConcat(OptionsMarkup(ps[..n]), OptionMarkup(ps[n]));
    }
  }

  /** The `<option` count of the whole select element: one per pair, besides any inside the labels. */
  lemma SelectMarkupCount(ps: seq<NamePair>)
    ensures OptionStarts(SelectMarkup(ps)) == |ps| + LabelOptionStarts(ps)
  {
    OptionsMarkupCount(ps);
    TagCounts();
    ThreePartCount(OpenTag, OptionsMarkup(ps), CloseTag);
  }

  /** The facts about the two fixed tags that the count of the whole element needs. */
  lemma TagCounts()
    ensures OptionStarts(OpenTag) == 0 && OptionStarts(CloseTag) == 0
    ensures OpenTag != [] && !CanEndPartial(OpenTag[|OpenTag| - 1])
    ensures CloseTag != [] && !CanContinue(CloseTag[0])
  {
    OpenTagCount();
    OpenTagEnd();
    OptionPieceChars();
    NoOptionAfterOpening(CloseTag);
  }

  /** When no label contains `<option`, the markup holds exactly one `<option` per pair. */
  lemma OptionCountMatchesPairs(ps: seq<NamePair>)
    requires forall i :: 0 <= i < |ps| ==> OptionStarts(ps[i].name) == 0
    ensures OptionStarts(SelectMarkup(ps)) == |ps|
  {
    SelectMarkupCount(ps);
    LabelsWithoutOption(ps);
  }

  lemma {:induction false} LabelsWithoutOption(ps: seq<NamePair>)
    requires forall i :: 0 <= i < |ps| ==> OptionStarts(ps[i].name) == 0
    ensures LabelOptionStarts(ps) == 0
    decreases |ps|
  {
    if ps != [] {
      LabelsWithoutOption(ps[..|ps| - 1]);
    }
  }

  // ----- Reading an option's value back -----

  /** The characters of `s` before its first '"'; the whole of `s` if it has none. */
  function UpToQuote(s: string): (v: string)
    ensures |v| <= |s| && v == s[..|v|] && '"' !in v
    ensures |v| < |s| ==> s[|v|] == '"'
  {
    if s == [] || s[0] == '"' then [] else [s[0]] + UpToQuote(s[1..])
  }

  /**
   * The value attribute of an option element, as a reader of the markup
   * finds it: the text between `<option value="` and the next '"'; `None`
   * if the element does not start that way.
   */
  function ValueAttribute(option: string): Option<string> {
    if |option| >= |OptionOpen| && option[..|OptionOpen|] == OptionOpen
    then Some(UpToQuote(option[|OptionOpen|..]))
    else None
  }

  lemma {:induction false} UpToQuoteConcat(a: string, b: string)
    requires '"' !in a && b != [] && b[0] == '"'
    ensures UpToQuote(a + b) == a
    decreases |a|
  {
    if a != [] {
      assert (a + b)[1..] == a[1..] + b;
      UpToQuoteConcat(a[1..], b);
    }
  }

  /**
   * The id round trip through the markup: the value attribute of the option
   * written for `p` is the decimal text of its id, and `parseInt` of it is
   * the id again.
   */
  lemma OptionValueRoundTrip(p: NamePair)
    ensures ValueAttribute(OptionMarkup(p)) == Some(IntToDecimal(p.id))
    ensures ParseInt(IntToDecimal(p.id)) == Some(p.id)
  {
    var d := IntToDecimal(p.id);
    var m := OptionMarkup(p);
    assert m == OptionOpen + (d + (ValueClose + p.name + OptionClose));
    assert m[|OptionOpen|..] == d + (ValueClose + p.name + OptionClose);
    assert '"' !in d by {
      forall i | 0 <= i < |d| ensures d[i] != '"' {
        assert d[i] == '-' || IsDecimalDigit(d[i]);
      }
    }
    UpToQuoteConcat(d, ValueClose + p.name + OptionClose);
    ParseIntRoundTrip(p.id);
  }
}
