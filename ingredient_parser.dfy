/** `parseIngredients`: normalises the ingredients field of a recipe record,
    whose shape varies by source (a list, a JSON-like string or free text),
    into a list of strings. */
module IngredientParser {
  import opened JsStrings
  import opened JsValues

  /** What the endpoint answers when the field is neither a list nor a string. */
  const Placeholder: seq<string> := ["Spices", "Main Ingredient"]

  /** Free text keeps at most this many comma-separated pieces. */
  const MaxPieces: nat := 5

  /** `JSON.parse` applied to a text whose trimmed form starts with `[` and
      ends with `]`: `Some(items)` when the text parses (it is then an array),
      `None` when `JSON.parse` throws. */
  type JsonArrayParser = string -> Option<seq<string>>

  function Min(a: nat, b: nat): nat {
    if a <= b then a else b
  }

  /** The string looks like a JSON array: trimmed, it starts with `[` and
      ends with `]`. */
  predicate LooksLikeArray(s: string) {
    StartsWith(Trim(s), "[") && EndsWith(Trim(s), "]")
  }

  /** `s.replace(/'/g, '"')`: single quotes become double quotes. */
  function NormaliseQuotes(s: string): (r: string)
    ensures |r| == |s| && '\'' !in r
    ensures forall i :: 0 <= i < |s| && s[i] == '\'' ==> r[i] == '"'
    ensures forall i :: 0 <= i < |s| && s[i] != '\'' ==> r[i] == s[i]
  {
    var r := ReplaceChar(s, '\'', '"');
    assert forall i :: 0 <= i < |r| ==> r[i] != '\'';
    r
  }

  /** `items.map(i => String(i))`. */
  function StringifyAll(items: seq<JsValue>): (r: seq<string>)
    ensures |r| == |items|
    ensures forall i :: 0 <= i < |r| ==> r[i] == ToJsString(items[i])
  {
    if items == [] then [] else [ToJsString(items[0])] + StringifyAll(items[1..])
  }

  /** `pieces.map(s => s.trim())`. */
  function TrimAll(pieces: seq<string>): (r: seq<string>)
    ensures |r| == |pieces|
    ensures forall i :: 0 <= i < |r| ==> r[i] == Trim(pieces[i])
  {
    if pieces == [] then [] else [Trim(pieces[0])] + TrimAll(pieces[1..])
  }

  /** `s.split(',').slice(0, 5).map(s => s.trim())`: the first five
      comma-separated pieces of `s` (all of them when there are fewer), in
      order, each trimmed. */
  function CommaPieces(s: string): (r: seq<string>)
    ensures 1 <= |r| <= MaxPieces
    ensures |r| == Min(MaxPieces, |Split(s, ',')|)
    ensures |r| == Min(MaxPieces, Count(s, ',') + 1)
    ensures forall i :: 0 <= i < |r| ==> r[i] == Trim(Split(s, ',')[i])
  {
    var pieces := Split(s, ',');
    SplitCount(s, ',');
    TrimAll(pieces[..Min(MaxPieces, |pieces|)])
  }

  /** `parseIngredients(field)`, with `JSON.parse` as the oracle `parse`. */
  function ParseIngredients(field: JsValue, parse: JsonArrayParser): (r: seq<string>)
    // a list: every element stringified, order kept, no cap
    ensures field.Array? ==>
      |r| == |field.elems| && forall i :: 0 <= i < |r| ==> r[i] == ToJsString(field.elems[i])
    // a bracketed string that parses: the parsed array, uncapped
    ensures field.Str? && LooksLikeArray(field.s) && parse(NormaliseQuotes(field.s)).Some? ==>
      r == parse(NormaliseQuotes(field.s)).value
    // any other string: the comma fallback, never an error
    ensures field.Str? && !(LooksLikeArray(field.s) && parse(NormaliseQuotes(field.s)).Some?) ==>
      1 <= |r| <= MaxPieces && r == CommaPieces(field.s)
    // neither a list nor a string
    ensures !field.Array? && !field.Str? ==> r == Placeholder
  {
    match field
    case Array(items) => StringifyAll(items)
    case Str(s) =>
      var parsed := if LooksLikeArray(s) then parse(NormaliseQuotes(s)) else None;
      if parsed.Some? then parsed.value else CommaPieces(s)
    case _ => Placeholder
  }

  /** The opening bracket of a bracketed string is its first
      non-whitespace character. */
  lemma {:induction false} OpeningBracketAt(s: string) returns (lead: nat)
    requires LooksLikeArray(s)
    ensures lead < |s| && s[lead] == '['
    ensures forall i :: 0 <= i < lead ==> IsJsWhitespace(s[i])
  {
    TrimIsInfix(s);
    lead := |s| - |TrimStart(s)|;
  }

  /** The closing bracket of a bracketed string is its last
      non-whitespace character. */
  lemma {:induction false} ClosingBracketAt(s: string) returns (close: nat)
    requires LooksLikeArray(s)
    ensures close < |s| && s[close] == ']'
    ensures forall i :: close < i < |s| ==> IsJsWhitespace(s[i])
  {
    TrimIsInfix(s);
    var t := Trim(s);
    close := |s| - |TrimStart(s)| + |t| - 1;
    assert t[|t| - 1] == ']';
  }

  /** The opening bracket of a bracketed string stays on its first
      comma-separated piece. */
  lemma {:induction false} FirstPieceKeepsOpeningBracket(s: string)
    requires LooksLikeArray(s)
    ensures StartsWith(Trim(Split(s, ',')[0]), "[")
  {
    var p := Split(s, ',')[0];
    SplitFirstIsPrefix(s, ',');
    var lead := OpeningBracketAt(s);
    assert lead < |p|;
    assert p[lead] == '[';
    forall i | 0 <= i < lead
      ensures IsJsWhitespace(p[i])
    {
      assert p[i] == s[i];
    }
    TrimStartsAt(p, lead);
  }

  /** The closing bracket of a bracketed string stays on its last
      comma-separated piece. */
  lemma {:induction false} LastPieceKeepsClosingBracket(s: string)
    requires LooksLikeArray(s)
    ensures EndsWith(Trim(Split(s, ',')[|Split(s, ',')| - 1]), "]")
  {
    var parts := Split(s, ',');
    var offset := |s| - |parts[|parts| - 1]|;
    var close := ClosingBracketAt(s);
    assert offset <= close && parts[|parts| - 1] == s[offset..] by {
      SplitLastIsSuffix(s, ',');
      if offset > 0 {
        assert !IsJsWhitespace(s[offset - 1]) && s[offset - 1] != ']';
      }
    }
    TrimSuffixEndsAt(s, offset, close);
    EndsWithLastChar(Trim(s[offset..]), ']');
  }

  /** A bracketed string that the parser rejects is split on commas with its
      brackets left in place: the first piece starts with `[`, and when no
      piece is cut off the last one ends with `]`. So `[a, b, c]` gives
      `"[a"`, `"b"`, `"c]"`, not the three bare letters. */
  lemma {:induction false} RejectedListKeepsBrackets(s: string, parse: JsonArrayParser)
    requires LooksLikeArray(s) && parse(NormaliseQuotes(s)) == None
    ensures var r := ParseIngredients(Str(s), parse);
      StartsWith(r[0], "[") && (Count(s, ',') < MaxPieces ==> EndsWith(r[|r| - 1], "]"))
  {
    var r := ParseIngredients(Str(s), parse);
    var parts := Split(s, ',');
    assert r == CommaPieces(s);
    FirstPieceKeepsOpeningBracket(s);
    assert r[0] == Trim(parts[0]);
    if Count(s, ',') < MaxPieces {
      SplitCount(s, ',');
      assert |r| == |parts|;
      LastPieceKeepsClosingBracket(s);
      assert r[|r| - 1] == Trim(parts[|parts| - 1]);
    }
  }

  /** A bracket that is never closed is not tried as JSON at all, whatever
      the parser would say. */
  lemma {:induction false} UnclosedListSplitsOnCommas(parse: JsonArrayParser)
    ensures ParseIngredients(Str("[a, b"), parse) == ["[a", "b"]
  {
    assert !LooksLikeArray("[a, b") by {
      TrimStartAt("[a, b", 0);
      TrimEndAt("[a, b", 4);
    }
    UnclosedListPieces();
  }

  lemma {:induction false} UnclosedListPieces()
    ensures CommaPieces("[a, b") == ["[a", "b"]
  {
    UnclosedListSplit();
    assert Trim("[a") == "[a" by {
      TrimStartAt("[a", 0);
      TrimEndAt("[a", 1);
    }
    assert Trim(" b") == "b" by {
      TrimStartAt(" b", 1);
      TrimEndAt("b", 0);
    }
  }

  lemma {:induction false} UnclosedListSplit()
    ensures Split("[a, b", ',') == ["[a", " b"]
  {
    assert Join(["[a", " b"], ',') == "[a, b";
    SplitJoin(["[a", " b"], ',');
  }
}
