/** The composite-literal parser and the output format it reads, PostgreSQL documentation section 8.16.6. */
module Composite {
  import opened Words
  import opened Bytes

  const QUOTE: Byte := 34
  const LPAREN: Byte := 40
  const RPAREN: Byte := 41
  const COMMA: Byte := 44
  const BACKSLASH: Byte := 92
  const NULL_TEXT: seq<Byte> := [78, 85, 76, 76]

  type Text = seq<Byte>
  type Field = Option<Text>

  /** What parsing comes to. Panic is the index out of range that an exhausted input runs into. */
  datatype Outcome = Row(fields: seq<Field>) | NoOpening | UnexpectedEnd | Panic

  predicate IsSpace(b: Byte) {
    b == 32 || 9 <= b <= 13
  }

  predicate IsSpecial(b: Byte) {
    b == QUOTE || b == LPAREN || b == RPAREN || b == COMMA || b == BACKSLASH || IsSpace(b)
  }

  // ----- printing, as PostgreSQL does it -----

  /** A value is quoted when it is empty or has a special byte in it. */
  predicate NeedsQuotes(v: Text) {
    v == [] || exists i :: 0 <= i < |v| && IsSpecial(v[i])
  }

  /** Quotes and backslashes are doubled. */
  function Escape(v: Text): Text {
    if v == [] then []
    else (if v[0] == QUOTE || v[0] == BACKSLASH then [v[0], v[0]] else [v[0]]) + Escape(v[1..])
  }

  function PrintField(f: Field): Text {
    match f
    case None => []
    case Some(v) => if NeedsQuotes(v) then [QUOTE] + Escape(v) + [QUOTE] else v
  }

  function PrintFields(row: seq<Field>): Text {
    if row == [] then []
    else if |row| == 1 then PrintField(row[0])
    else PrintField(row[0]) + [COMMA] + PrintFields(row[1..])
  }

  function Print(row: seq<Field>): Text {
    [LPAREN] + PrintFields(row) + [RPAREN]
  }

  // ----- reading, as a function of the text that is left -----

  /** The value of a quoted field and the text after its closing quote, or None when there is none. */
  function Quoted(s: Text, elem: Text): (r: Option<(Text, Text)>)
    ensures r.Some? ==> |r.value.1| < |s|
  {
    if s == [] then None
    else if s[0] == BACKSLASH then
      if |s| == 1 then None else Quoted(s[2..], elem + [s[1]])
    else if s[0] == QUOTE then
      if |s| > 1 && s[1] == QUOTE then Quoted(s[2..], elem + [QUOTE]) else Some((elem, s[1..]))
    else Quoted(s[1..], elem + [s[0]])
  }

  /** The length of an unquoted field. */
  function Until(s: Text): (n: nat)
    ensures n <= |s| && (n < |s| ==> s[n] == COMMA || s[n] == RPAREN)
    ensures forall i | 0 <= i < n :: s[i] != COMMA && s[i] != RPAREN
  {
    if s == [] || s[0] == COMMA || s[0] == RPAREN then 0 else 1 + Until(s[1..])
  }

  /** An unquoted field is null when it is empty, and also when it reads NULL. */
  function Unquoted(v: Text): Field {
    if v == [] || v == NULL_TEXT then None else Some(v)
  }

  /** The field at the head of the text, and the text from the byte after it on; None when there is no such
      byte. */
  function Element(s: Text): (r: Option<(Field, Text)>)
    requires s != []
    ensures r.Some? ==> var rest := r.value.1;
      rest != [] && |rest| <= |s| && (|rest| == |s| ==> rest[0] == COMMA || rest[0] == RPAREN)
  {
    if s[0] == QUOTE then
      match Quoted(s[1..], [])
      case None => None
      case Some((v, rest)) => if rest == [] then None else Some((Some(v), rest))
    else
      var n := Until(s);
      if n == |s| then None else Some((Unquoted(s[..n]), s[n..]))
  }

  /** The fields to come. After a quoted field, a byte that is neither comma nor parenthesis begins another. */
  function Elements(s: Text, fields: seq<Field>): Outcome
    decreases |s|
  {
    if s == [] then UnexpectedEnd else
    match Element(s)
    case None => Panic
    case Some((f, rest)) =>
      if rest[0] == COMMA then Elements(rest[1..], fields + [f])
      else if rest[0] == RPAREN then Row(fields + [f])
      else Elements(rest, fields + [f])
  }

  function Read(src: Text): Outcome {
    if src == [] || src[0] != LPAREN then NoOpening else Elements(src[1..], [])
  }

  // ----- the parser -----

  lemma Tail(src: Text, i: nat)
    requires i < |src|
    ensures src[i..] != [] && src[i..][0] == src[i] && src[i..][1..] == src[i + 1..]
    ensures i + 1 < |src| ==> src[i..][1] == src[i + 1] && src[i..][2..] == src[i + 2..]
  {
  }

  method ParseQuoted(src: Text, from: nat) returns (elem: Text, i: nat, closed: bool)
    requires from < |src| && src[from] == QUOTE
    ensures from < i <= |src|
    ensures Quoted(src[from + 1..], []) == if closed then Some((elem, src[i..])) else None
    ensures !closed ==> i == |src|
  {
    elem, closed := [], false;
    var escape := false;
    i := from + 1;
    while i < |src|
      invariant from < i <= |src| && !closed
      invariant Quoted(src[from + 1..], []) ==
        if !escape then Quoted(src[i..], elem) else if i == |src| then None else Quoted(src[i + 1..], elem + [src[i]])
    {
      Tail(src, i);
      if escape {
        elem := elem + [src[i]];
        escape := false;
      } else if src[i] == BACKSLASH {
        escape := true;
      } else if src[i] == QUOTE {
        i := i + 1;
        if i < |src| && src[i] == QUOTE {
          elem := elem + [src[i]];
        } else {
          return elem, i, true;
        }
      } else {
        elem := elem + [src[i]];
      }
      i := i + 1;
    }
  }

  method ParseElement(src: Text, from: nat) returns (f: Field, i: nat)
    requires from < |src|
    ensures from <= i <= |src|
    ensures Element(src[from..]) == if i < |src| then Some((f, src[i..])) else None
  {
    hide Quoted, Unquoted;
    i, f := from, None;
    Tail(src, i);
    if src[i] == QUOTE {
      var elem, closed;
      elem, i, closed := ParseQuoted(src, i);
      f := Some(elem);
    } else {
      while i < |src| && src[i] != COMMA && src[i] != RPAREN
        invariant from <= i <= |src| && Until(src[from..]) == i - from + Until(src[i..])
      {
        Tail(src, i);
        i := i + 1;
      }
      assert i < |src| ==> src[from..][i - from..] == src[i..] && src[from..][..i - from] == src[from..i];
      f := Unquoted(src[from..i]);
    }
  }

  method ParseComposite(src: Text) returns (r: Outcome)
    ensures r == Read(src)
  {
    if |src| < 1 || src[0] != LPAREN {
      return NoOpening;
    }
    var i := 1;
    var fields: seq<Field> := [];
    while i < |src|
      invariant 1 <= i <= |src| && Read(src) == Elements(src[i..], fields)
      decreases |src| - i
    {
      hide Element;
      assert src[i..] != [];
      var f;
      f, i := ParseElement(src, i);
      if i >= |src| {
        return Panic;
      }
      fields := fields + [f];
      Tail(src, i);
      if src[i] == COMMA {
        i := i + 1;
      } else if src[i] == RPAREN {
        return Row(fields);
      }
    }
    return UnexpectedEnd;
  }

  // ----- round trip -----

  /** What a printed field reads back as. */
  function ReadField(f: Field): Field {
    if f == Some(NULL_TEXT) then None else f
  }

  function ReadRow(row: seq<Field>): (r: seq<Field>)
    ensures |r| == |row| && forall i :: 0 <= i < |row| ==> r[i] == ReadField(row[i])
  {
    seq(|row|, i requires 0 <= i < |row| => ReadField(row[i]))
  }

  /** Text that ends a field. */
  predicate EndsField(t: Text) {
    t != [] && (t[0] == COMMA || t[0] == RPAREN)
  }

  /** An escaped value reads back as itself. */
  lemma {:induction false} EscapeReads(v: Text, t: Text, elem: Text)
    requires EndsField(t)
    ensures Quoted(Escape(v) + [QUOTE] + t, elem) == Some((elem + v, t))
  {
    var s := Escape(v) + [QUOTE] + t;
    if v == [] {
      assert s == [QUOTE] + t && s[1..] == t;
      assert elem + v == elem;
    } else {
      var first := if v[0] == QUOTE || v[0] == BACKSLASH then [v[0], v[0]] else [v[0]];
      EscapeReads(v[1..], t, elem + [v[0]]);
      assert s == first + (Escape(v[1..]) + [QUOTE] + t);
      assert s[|first|..] == Escape(v[1..]) + [QUOTE] + t;
      assert elem + [v[0]] + v[1..] == elem + v;
    }
  }

  /** An unquoted value ends where the field ends. */
  lemma {:induction false} PlainReads(v: Text, t: Text)
    requires EndsField(t) && forall i :: 0 <= i < |v| ==> v[i] != COMMA && v[i] != RPAREN
    ensures Until(v + t) == |v|
  {
    if v == [] {
      assert v + t == t;
    } else {
      PlainReads(v[1..], t);
      assert (v + t)[1..] == v[1..] + t;
    }
  }

  lemma QuotedFieldReads(v: Text, t: Text)
    requires EndsField(t)
    ensures Element([QUOTE] + Escape(v) + [QUOTE] + t) == Some((Some(v), t))
  {
    var s := [QUOTE] + Escape(v) + [QUOTE] + t;
    EscapeReads(v, t, []);
    hide Escape;
    assert s[1..] == Escape(v) + [QUOTE] + t;
    assert [] + v == v;
  }

  lemma PlainFieldReads(v: Text, t: Text)
    requires EndsField(t) && forall i :: 0 <= i < |v| ==> !IsSpecial(v[i])
    ensures v + t != [] && Element(v + t) == Some((Unquoted(v), t))
  {
    var s := v + t;
    PlainReads(v, t);
    assert s[..|v|] == v && s[|v|..] == t;
    assert s[0] == if v == [] then t[0] else v[0];
  }

  /** One printed field followed by the end of a field. */
  lemma FieldReads(f: Field, t: Text)
    requires EndsField(t)
    ensures PrintField(f) + t != [] && Element(PrintField(f) + t) == Some((ReadField(f), t))
  {
    hide Element, Escape;
    if f.Some? && NeedsQuotes(f.value) {
      assert NULL_TEXT != [] && !NeedsQuotes(NULL_TEXT);
      QuotedFieldReads(f.value, t);
    } else {
      PlainFieldReads(PrintField(f), t);
    }
  }

  /** The printed fields with what ends the row and follows it. */
  function Closed(row: seq<Field>, t: Text): Text {
    PrintFields(row) + ([RPAREN] + t)
  }

  lemma ClosedSplits(row: seq<Field>, t: Text)
    requires |row| > 1
    ensures Closed(row, t) == PrintField(row[0]) + ([COMMA] + Closed(row[1..], t))
  {
    hide PrintField;
  }

  lemma {:induction false} FieldsRead(row: seq<Field>, t: Text, fields: seq<Field>)
    requires row != []
    ensures Elements(Closed(row, t), fields) == Row(fields + ReadRow(row))
  {
    hide PrintField, Element, ReadField;
    if |row| == 1 {
      FieldReads(row[0], [RPAREN] + t);
      assert ReadRow(row) == [ReadField(row[0])];
    } else {
      hide Closed;
      var more := [COMMA] + Closed(row[1..], t);
      ClosedSplits(row, t);
      FieldReads(row[0], more);
      assert more[1..] == Closed(row[1..], t);
      FieldsRead(row[1..], t, fields + [ReadField(row[0])]);
      assert fields + ReadRow(row) == fields + [ReadField(row[0])] + ReadRow(row[1..]);
    }
  }

  lemma EmptyReads(t: Text)
    ensures Read(Print([]) + t) == Row([None])
  {
    FieldReads(None, [RPAREN] + t);
    hide Element;
    assert (Print([]) + t)[1..] == PrintField(None) + ([RPAREN] + t);
  }

  /** Whatever follows it, a printed row reads back as itself up to the value NULL, and the row of no fields as
      one null field. */
  lemma PrintedReads(row: seq<Field>, t: Text)
    ensures Read(Print(row) + t) == Row(if row == [] then [None] else ReadRow(row))
  {
    hide PrintFields, Elements, Element, PrintField;
    if row == [] {
      EmptyReads(t);
    } else {
      assert (Print(row) + t)[1..] == Closed(row, t);
      FieldsRead(row, t, []);
    }
  }

  /** Reading what was printed gives the row back exactly when it has a field and none is the value NULL. */
  lemma RoundTripIff(row: seq<Field>)
    ensures Read(Print(row)) == Row(row) <==>
            row != [] && forall i :: 0 <= i < |row| ==> row[i] != Some(NULL_TEXT)
  {
    PrintedReads(row, []);
    assert Print(row) + [] == Print(row);
    if row != [] {
      var r := ReadRow(row);
      if forall i :: 0 <= i < |row| ==> row[i] != Some(NULL_TEXT) {
        assert r == row;
      } else {
        var i :| 0 <= i < |row| && row[i] == Some(NULL_TEXT);
        assert r[i] != row[i];
      }
    }
  }

  /** Two rows that both round-trip and print alike are the same row. */
  lemma PrintInjective(a: seq<Field>, b: seq<Field>)
    requires a != [] && forall i :: 0 <= i < |a| ==> a[i] != Some(NULL_TEXT)
    requires b != [] && forall i :: 0 <= i < |b| ==> b[i] != Some(NULL_TEXT)
    requires Print(a) == Print(b)
    ensures a == b
  {
    RoundTripIff(a);
    RoundTripIff(b);
  }

  // ----- truncated input -----

  /** A quoted field cut short has no closing quote, or ends at what looks like one. */
  lemma {:induction false} CutQuoted(v: Text, k: nat, elem: Text)
    requires k <= |Escape(v) + [QUOTE]|
    ensures var r := Quoted((Escape(v) + [QUOTE])[..k], elem); r.None? || r.value.1 == []
  {
    var s := (Escape(v) + [QUOTE])[..k];
    if v != [] && k > 0 {
      var first := if v[0] == QUOTE || v[0] == BACKSLASH then [v[0], v[0]] else [v[0]];
      if k >= |first| {
        CutQuoted(v[1..], k - |first|, elem + [v[0]]);
        assert s == first + (Escape(v[1..]) + [QUOTE])[..k - |first|];
        assert s[|first|..] == (Escape(v[1..]) + [QUOTE])[..k - |first|];
      } else {
        assert s == [v[0]];
      }
    }
  }

  lemma {:induction false} PlainToEnd(s: Text)
    requires forall i :: 0 <= i < |s| ==> s[i] != COMMA && s[i] != RPAREN
    ensures Until(s) == |s|
  {
    if s != [] {
      PlainToEnd(s[1..]);
    }
  }

  lemma CutQuotedField(v: Text, k: nat)
    requires 0 < k <= |[QUOTE] + Escape(v) + [QUOTE]|
    ensures Element(([QUOTE] + Escape(v) + [QUOTE])[..k]) == None
  {
    var s := ([QUOTE] + Escape(v) + [QUOTE])[..k];
    CutQuoted(v, k - 1, []);
    hide Escape;
    assert s[1..] == (Escape(v) + [QUOTE])[..k - 1];
  }

  lemma CutPlainField(v: Text, k: nat)
    requires 0 < k <= |v| && forall i :: 0 <= i < |v| ==> !IsSpecial(v[i])
    ensures Element(v[..k]) == None
  {
    PlainToEnd(v[..k]);
  }

  lemma CutField(f: Field, k: nat)
    requires 0 < k <= |PrintField(f)|
    ensures Element(PrintField(f)[..k]) == None
  {
    hide Element, Escape;
    if NeedsQuotes(f.value) {
      CutQuotedField(f.value, k);
    } else {
      CutPlainField(f.value, k);
    }
  }

  lemma CutSplits(row: seq<Field>, k: nat)
    requires |row| > 1 && |PrintField(row[0])| < k <= |PrintFields(row)|
    ensures k - |PrintField(row[0])| - 1 <= |PrintFields(row[1..])|
    ensures PrintFields(row)[..k] ==
            PrintField(row[0]) + ([COMMA] + PrintFields(row[1..])[..k - |PrintField(row[0])| - 1])
  {
    hide PrintField;
  }

  /** The first `k` bytes of the printed fields end where a field begins: at the start, or after a separator. */
  predicate AtFieldStart(row: seq<Field>, k: nat)
    requires row != []
  {
    k == 0 || (|row| > 1 && k > |PrintField(row[0])| && AtFieldStart(row[1..], k - |PrintField(row[0])| - 1))
  }

  lemma {:induction false} CutFields(row: seq<Field>, k: nat, fields: seq<Field>)
    requires row != [] && k <= |PrintFields(row)|
    ensures Elements(PrintFields(row)[..k], fields) == if AtFieldStart(row, k) then UnexpectedEnd else Panic
  {
    var f := PrintField(row[0]);
    hide PrintField, Element, ReadField;
    if k == 0 {
    } else if |row| == 1 || k <= |f| {
      assert PrintFields(row)[..k] == f[..k];
      CutField(row[0], k);
    } else {
      CutSplits(row, k);
      var rest := PrintFields(row[1..])[..k - |f| - 1];
      CutFields(row[1..], k - |f| - 1, fields + [ReadField(row[0])]);
      hide PrintFields;
      FieldReads(row[0], [COMMA] + rest);
      assert ([COMMA] + rest)[1..] == rest;
    }
  }

  /** Of a printed row, no part short of its end reads as a row at all: the intended error comes only where a field
      would begin, and every other cut indexes past the end. */
  lemma CutNeverReads(row: seq<Field>, k: nat)
    requires row != [] && k < |Print(row)|
    ensures Read(Print(row)[..k]) ==
            if k == 0 then NoOpening else if AtFieldStart(row, k - 1) then UnexpectedEnd else Panic
  {
    if k > 0 {
      hide PrintFields, Elements, AtFieldStart;
      var p := PrintFields(row);
      assert [LPAREN] + p + [RPAREN] == [LPAREN] + (p + [RPAREN]);
      assert Print(row)[..k][1..] == p[..k - 1] && Print(row)[..k][0] == LPAREN;
      hide Print;
      CutFields(row, k - 1, []);
    }
  }

  // ----- by the bytes -----

  lemma {:induction false} EscapeGrows(v: Text)
    ensures |Escape(v)| >= |v|
  {
    if v != [] {
      EscapeGrows(v[1..]);
    }
  }

  /** A value prints as it is exactly when it is not empty and has no quote, parenthesis, comma, backslash or white
      space in it. */
  lemma PrintsPlainIff(v: Text)
    ensures PrintField(Some(v)) == v <==>
            v != [] && forall b | b in v :: b !in {34, 40, 41, 44, 92, 9, 10, 11, 12, 13, 32}
  {
    EscapeGrows(v);
    if NeedsQuotes(v) && v != [] {
      var i :| 0 <= i < |v| && IsSpecial(v[i]);
      assert v[i] in v;
    }
    if b :| b in v && b in {34, 40, 41, 44, 92, 9, 10, 11, 12, 13, 32} {
      var i :| 0 <= i < |v| && v[i] == b;
      assert IsSpecial(v[i]);
    }
  }

  lemma NextField(f: Field, rest: seq<Field>)
    ensures PrintFields([f]) == PrintField(f)
    ensures rest != [] ==> PrintFields([f] + rest) == PrintField(f) + [44] + PrintFields(rest)
  {
    hide PrintField;
    assert ([f] + rest)[1..] == rest;
  }

  lemma SampleFields()
    ensures PrintField(None) == [] && PrintField(Some([97])) == [97] && PrintField(Some([])) == [34] + [34]
    ensures PrintField(Some([34, 92])) == [34] + [34, 34, 92, 92] + [34]
  {
    PrintsPlainIff([97]);
    assert [34] + [] + [34] == [34] + [34];
    assert [34, 92][1..] == [92] && [92][1..] == [];
    assert Escape([92]) == [92, 92] && Escape([34, 92]) == [34, 34] + [92, 92];
    assert IsSpecial([34, 92][0]);
  }

  /** The letter a, a null, the empty value, a quote and a backslash print as (a,,"","""\\"). */
  lemma SamplePrints()
    ensures Print([Some([97])] + ([None] + ([Some([])] + [Some([34, 92])]))) ==
            [40] + ([97] + [44] + ([] + [44] + ([34] + [34] + [44] + ([34] + [34, 34, 92, 92] + [34])))) + [41]
  {
    SampleFields();
    hide PrintField, PrintFields;
    var last := [Some([34, 92])];
    NextField(Some([34, 92]), []);
    NextField(Some([]), last);
    NextField(None, [Some([])] + last);
    NextField(Some([97]), [None] + ([Some([])] + last));
  }

  /** The four letters NULL print as they are, and read as a null. */
  lemma NullReads()
    ensures Print([Some([78, 85, 76, 76])]) == [40] + [78, 85, 76, 76] + [41]
    ensures Read([40] + [78, 85, 76, 76] + [41]) == Row([None])
  {
    var v: Text := [78, 85, 76, 76];
    PrintsPlainIff(v);
    NextField(Some(v), []);
    PrintedReads([Some(v)], []);
    hide Read, PrintField, PrintFields;
    assert Print([Some(v)]) + [] == Print([Some(v)]);
    assert ReadRow([Some(v)]) == [None];
  }
}
