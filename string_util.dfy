/**
 * The string helpers of `stringUtil.js`: `toTitleCase` (split on single
 * spaces, upper-case the first character of every piece, join again) and
 * `isString`.
 */
module StringUtil {
  import opened Wrappers
  import opened JsValues
  import opened Ascii

  /** Index of the first space in `s`, or `|s|` when there is none. */
  function FirstSpace(s: string): (i: nat)
    ensures i <= |s|
    ensures forall j :: 0 <= j < i ==> s[j] != ' '
    ensures i < |s| ==> s[i] == ' '
  {
    if |s| == 0 || s[0] == ' ' then 0 else 1 + FirstSpace(s[1..])
  }

  /** `s.split(' ')`: the pieces between single spaces, empty pieces included. */
  function Split(s: string): (words: seq<string>)
    ensures |words| > 0
    decreases |s|
  {
    var i := FirstSpace(s);
    if i == |s| then [s] else [s[..i]] + Split(s[i + 1..])
  }

  /** `words.join(' ')`. */
  function Join(words: seq<string>): string
    requires |words| > 0
  {
    if |words| == 1 then words[0] else words[0] + " " + Join(words[1..])
  }

  /** Splitting on spaces and joining with spaces gives the string back. */
  lemma {:induction false} JoinSplit(s: string)
    ensures Join(Split(s)) == s
    decreases |s|
  {
    var i := FirstSpace(s);
    if i < |s| {
      var rest := s[i + 1..];
      JoinSplit(rest);
      assert ([s[..i]] + Split(rest))[1..] == Split(rest);
      assert s == s[..i] + " " + rest;
    }
  }

  /** `word[0].toUpperCase() + word.slice(1)`; `word[0]` is undefined for an empty piece. */
  function Capitalize(word: string): Result<string, Exception> {
    if word == "" then Err(TypeError("first character of an empty word"))
    else Ok([Upper(word[0])] + word[1..])
  }

  /** `words.map(capitalize)`, which stops at the first piece that throws. */
  function CapitalizeAll(words: seq<string>): (r: Result<seq<string>, Exception>)
    ensures r.Ok? ==> |r.value| == |words|
  {
    if words == [] then Ok([])
    else match Capitalize(words[0])
      case Err(e) => Err(e)
      case Ok(w) =>
        match CapitalizeAll(words[1..])
        case Err(e) => Err(e)
        case Ok(ws) => Ok([w] + ws)
  }

  /** The character at `i` begins a word: it is the first one or follows a space. */
  predicate StartsWord(s: string, i: int)
    requires 0 <= i < |s|
  {
    i == 0 || s[i - 1] == ' '
  }

  /** Two spaces in a row at `j`. */
  predicate DoubleSpaceAt(s: string, j: int) {
    0 <= j < |s| - 1 && s[j] == ' ' && s[j + 1] == ' '
  }

  /** Splitting `s` on spaces yields an empty piece: a leading, trailing or doubled space. */
  predicate HasEmptyWord(s: string) {
    |s| > 0 && (s[0] == ' ' || s[|s| - 1] == ' ' || exists j :: 0 <= j < |s| - 1 && DoubleSpaceAt(s, j))
  }

  /** What title-casing does to a string: upper-case each word start, keep everything else. */
  predicate IsTitleCased(s: string, r: string) {
    |r| == |s| && forall i :: 0 <= i < |s| ==> r[i] == if StartsWord(s, i) then Upper(s[i]) else s[i]
  }

  /** An empty piece after the first word is an empty piece of the whole string. */
  lemma EmptyWordInRest(s: string, i: nat)
    requires i < |s| && s[i] == ' ' && forall j :: 0 <= j < i ==> s[j] != ' '
    requires i == 0 || s[i + 1..] == "" || HasEmptyWord(s[i + 1..])
    ensures HasEmptyWord(s)
  {
    var rest := s[i + 1..];
    if i == 0 {
      assert s[0] == ' ';
    } else if rest == "" {
      assert s[|s| - 1] == ' ';
    } else if rest[0] == ' ' {
      assert DoubleSpaceAt(s, i);
    } else if rest[|rest| - 1] == ' ' {
      assert s[|s| - 1] == rest[|rest| - 1];
    } else {
      var j :| 0 <= j < |rest| - 1 && DoubleSpaceAt(rest, j);
      assert DoubleSpaceAt(s, i + 1 + j);
    }
  }

  /** An empty piece of the whole string lies at the first word's end or after it. */
  lemma EmptyWordInWhole(s: string, i: nat)
    requires i < |s| && s[i] == ' ' && forall j :: 0 <= j < i ==> s[j] != ' '
    requires HasEmptyWord(s)
    ensures i == 0 || s[i + 1..] == "" || HasEmptyWord(s[i + 1..])
  {
    var rest := s[i + 1..];
    if i != 0 && rest != "" {
      if s[|s| - 1] == ' ' {
        assert rest[|rest| - 1] == ' ';
      } else {
        assert s[0] != ' ';
        var j :| 0 <= j < |s| - 1 && DoubleSpaceAt(s, j);
        assert s[j] == ' ';
        if j == i {
          assert rest[0] == ' ';
        } else {
          assert j > i;
          assert DoubleSpaceAt(rest, j - i - 1);
        }
      }
    }
  }

  /** Where the first word ends, an empty piece is either that word, a trailing space or one in the rest. */
  lemma EmptyWordAfterFirstSpace(s: string, i: nat)
    requires i == FirstSpace(s) < |s|
    ensures HasEmptyWord(s) <==> i == 0 || s[i + 1..] == "" || HasEmptyWord(s[i + 1..])
  {
    if HasEmptyWord(s) {
      EmptyWordInWhole(s, i);
    }
    if i == 0 || s[i + 1..] == "" || HasEmptyWord(s[i + 1..]) {
      EmptyWordInRest(s, i);
    }
  }

  lemma {:induction false} CapitalizeSplitFails(s: string)
    ensures CapitalizeAll(Split(s)).Err? <==> s == "" || HasEmptyWord(s)
    decreases |s|
  {
    var i := FirstSpace(s);
    if i == |s| {
      assert Split(s) == [s];
      assert [s][1..] == [];
      if s != "" {
        assert s[0] != ' ' && s[|s| - 1] != ' ';
      }
    } else {
      var rest := s[i + 1..];
      var words := Split(s);
      assert words[0] == s[..i] && words[1..] == Split(rest);
      CapitalizeSplitFails(rest);
      EmptyWordAfterFirstSpace(s, i);
    }
  }

  lemma JoinCons(w: string, ws: seq<string>)
    requires |ws| > 0
    ensures Join([w] + ws) == w + " " + Join(ws)
  {
    assert ([w] + ws)[1..] == ws;
  }

  /** One position of `TitleCasedCons`. */
  lemma TitleCasedConsAt(s: string, i: nat, r: string, tail: string, k: nat)
    requires i == FirstSpace(s) < |s| && i > 0 && k < |s|
    requires |tail| == |s| - i - 1
    requires k > i ==> tail[k - i - 1] == if StartsWord(s[i + 1..], k - i - 1) then Upper(s[k]) else s[k]
    requires r == [Upper(s[0])] + s[1..i] + " " + tail
    ensures r[k] == if StartsWord(s, k) then Upper(s[k]) else s[k]
  {
    var head := [Upper(s[0])] + s[1..i];
    if k == 0 {
      assert r[0] == head[0];
    } else if k < i {
      assert r[k] == head[k] == s[k];
      assert s[k - 1] != ' ';
    } else if k == i {
      assert r[k] == ' ' == s[k];
    } else {
      assert r[k] == tail[k - i - 1];
      assert StartsWord(s, k) == StartsWord(s[i + 1..], k - i - 1);
    }
  }

  /** Title-casing the rest after the first word, with the first word capitalized in front. */
  lemma TitleCasedCons(s: string, i: nat, r: string, tail: string)
    requires i == FirstSpace(s) < |s| && i > 0
    requires IsTitleCased(s[i + 1..], tail)
    requires r == [Upper(s[0])] + s[1..i] + " " + tail
    ensures IsTitleCased(s, r)
  {
    var rest := s[i + 1..];
    forall k | 0 <= k < |s|
      ensures r[k] == if StartsWord(s, k) then Upper(s[k]) else s[k]
    {
      if k > i {
        assert rest[k - i - 1] == s[k];
      }
      TitleCasedConsAt(s, i, r, tail, k);
    }
  }

  lemma {:induction false} CapitalizeSplitTitleCases(s: string)
    requires CapitalizeAll(Split(s)).Ok?
    ensures IsTitleCased(s, Join(CapitalizeAll(Split(s)).value))
    decreases |s|
  {
    var i := FirstSpace(s);
    var words := Split(s);
    if i == |s| {
      assert words == [s];
      assert [s][1..] == [];
    } else {
      var rest := s[i + 1..];
      assert words[0] == s[..i] && words[1..] == Split(rest);
      CapitalizeSplitTitleCases(rest);
      var cw := [Upper(s[0])] + s[1..i];
      var tail := CapitalizeAll(Split(rest)).value;
      assert CapitalizeAll(words).value == [cw] + tail;
      JoinCons(cw, tail);
      TitleCasedCons(s, i, Join([cw] + tail), Join(tail));
    }
  }

  /**
   * `toTitleCase(input)`: the empty string is returned as it is; otherwise the
   * first character of every space-separated word is upper-cased, and a word
   * left empty by a leading, trailing or doubled space makes it throw.
   */
  function ToTitleCase(input: string): (r: Result<string, Exception>)
    ensures input == "" ==> r == Ok("")
    ensures r.Err? <==> HasEmptyWord(input)
    ensures r.Ok? ==> IsTitleCased(input, r.value)
  {
    CapitalizeSplitFails(input);
    if input == "" then Ok(input)
    else match CapitalizeAll(Split(input))
      case Err(e) => Err(e)
      case Ok(words) => CapitalizeSplitTitleCases(input); Ok(Join(words))
  }

  /** Spaces stay where they were and nothing else but word starts changes. */
  lemma TitleCaseKeepsSpaces(input: string, i: nat)
    requires ToTitleCase(input).Ok? && i < |input|
    ensures input[i] == ' ' <==> ToTitleCase(input).value[i] == ' '
    ensures !StartsWord(input, i) ==> ToTitleCase(input).value[i] == input[i]
  {
  }

  /** `isString(value)`: `typeof value === 'string'`. */
  function IsStringValue(value: JsValue): (r: bool)
    ensures r <==> exists s :: value == Str(s)
  {
    IsString(value)
  }
}
