/**
 * The searchable-options mixin of `searchMixin.js`: the options shown
 * (`localOptions`), the search text, whether a remote search is in flight and
 * the handle of the last request.
 *
 * The throttled `searchText` watcher is two steps: `SearchTextChanged` runs
 * up to the point where the remote request is issued (or filters locally),
 * and `ReceiveResponse` runs with the request's outcome. The URL of the
 * options endpoint arrives already parsed into its path and query.
 */
module SearchMixin {
  import opened Wrappers
  import opened JsValues
  import opened Ascii

  // ---------------------------------------------------------------------------
  // Computeds and the pure parts of the watcher

  /** `hasQuery`. */
  predicate HasQuery(searchText: string) {
    searchText != ""
  }

  /** `noOptionsText`: a remote field asks for typing, a local one apologises. */
  function NoOptionsText(optionsUrl: string): (r: string)
    ensures optionsUrl != "" <==> r == "Type to search ..."
    ensures optionsUrl == "" <==> r == "Sorry, no matching options."
  {
    if optionsUrl != "" then "Type to search ..." else "Sorry, no matching options."
  }

  /** `optionKeys`: each option's `optionValue` property; a null option throws. */
  function OptionKeys(options: seq<JsValue>, optionValue: string): (r: Result<seq<JsValue>, Exception>)
    ensures r.Ok? <==> forall i :: 0 <= i < |options| ==> !IsNullish(options[i])
    ensures r.Ok? ==> |r.value| == |options|
                      && forall i :: 0 <= i < |options| ==> r.value[i] == Prop(options[i], optionValue)
    decreases |options|
  {
    if options == [] then Ok([])
    else if IsNullish(options[0]) then Err(TypeError("cannot read properties of null"))
    else match OptionKeys(options[1..], optionValue)
      case Err(e) => Err(e)
      case Ok(rest) => Ok([Prop(options[0], optionValue)] + rest)
  }

  /** `item[displayName].toLowerCase().startsWith(searchText.toLowerCase())`. */
  function NameMatches(item: JsValue, displayName: string, searchText: string): Result<bool, Exception> {
    match Get(item, displayName)
    case Err(e) => Err(e)
    case Ok(name) =>
      if name.Str? then Ok(StartsWith(LowerString(name.s), LowerString(searchText)))
      else Err(TypeError("toLowerCase is not a function"))
  }

  /**
   * The elements of `s` whose flag is set, in their order: the reference
   * for the order-keeping filters below, built from the back of `s`.
   */
  function Select<T>(s: seq<T>, keep: seq<bool>): (r: seq<T>)
    requires |keep| == |s|
    ensures |r| <= |s|
    decreases |s|
  {
    if s == [] then []
    else
      var n := |s| - 1;
      Select(s[..n], keep[..n]) + (if keep[n] then [s[n]] else [])
  }

  /** Selecting from a sequence with one more element in front. */
  lemma {:induction false} SelectCons<T>(a: T, s: seq<T>, b: bool, keep: seq<bool>)
    requires |keep| == |s|
    ensures Select([a] + s, [b] + keep) == (if b then [a] else []) + Select(s, keep)
    decreases |s|
  {
    if s == [] {
      assert ([a] + s)[..0] == [] && ([b] + keep)[..0] == [];
    } else {
      var n := |s| - 1;
      SelectCons(a, s[..n], b, keep[..n]);
      assert ([a] + s)[..n + 1] == [a] + s[..n];
      assert ([b] + keep)[..n + 1] == [b] + keep[..n];
    }
  }

  /** An element is selected exactly when some flagged position holds it. */
  lemma {:induction false} SelectMembership<T>(s: seq<T>, keep: seq<bool>, x: T)
    requires |keep| == |s|
    ensures x in Select(s, keep) <==> exists i :: 0 <= i < |s| && keep[i] && s[i] == x
    decreases |s|
  {
    if s != [] {
      var n := |s| - 1;
      SelectMembership(s[..n], keep[..n], x);
      if exists i :: 0 <= i < |s| && keep[i] && s[i] == x {
        var i :| 0 <= i < |s| && keep[i] && s[i] == x;
        if i < n {
          assert s[..n][i] == x && keep[..n][i];
        }
      }
    }
  }

  /** Whether the local search keeps option `i`. */
  function MatchFlags(options: seq<JsValue>, displayName: string, searchText: string): seq<bool> {
    seq(|options|, i requires 0 <= i < |options| => NameMatches(options[i], displayName, searchText) == Ok(true))
  }

  /** The local search: the options whose display name starts with the text, ignoring case. */
  function PrefixMatches(options: seq<JsValue>, displayName: string, searchText: string): (r: Result<seq<JsValue>, Exception>)
    ensures r.Ok? ==> |r.value| <= |options| && forall x :: x in r.value ==> x in options
    decreases |options|
  {
    if options == [] then Ok([])
    else match NameMatches(options[0], displayName, searchText)
      case Err(e) => Err(e)
      case Ok(keep) =>
        match PrefixMatches(options[1..], displayName, searchText)
        case Err(e) => Err(e)
        case Ok(rest) => Ok(if keep then [options[0]] + rest else rest)
  }

  /**
   * The local search succeeds exactly when every option has a string display
   * name; then it keeps exactly the matching options, in their order.
   */
  lemma PrefixMatchesSpec(options: seq<JsValue>, displayName: string, searchText: string)
    ensures PrefixMatches(options, displayName, searchText).Ok?
            <==> forall i :: 0 <= i < |options| ==> NameMatches(options[i], displayName, searchText).Ok?
    ensures PrefixMatches(options, displayName, searchText).Ok? ==>
              var r := PrefixMatches(options, displayName, searchText).value;
              && |r| <= |options|
              && forall x :: x in r <==> exists i :: 0 <= i < |options| && options[i] == x
                                                     && NameMatches(options[i], displayName, searchText) == Ok(true)
    ensures PrefixMatches(options, displayName, searchText).Ok? ==>
              PrefixMatches(options, displayName, searchText).value == Select(options, MatchFlags(options, displayName, searchText))
  {
    PrefixMatchesOk(options, displayName, searchText);
    if PrefixMatches(options, displayName, searchText).Ok? {
      PrefixMatchesSelects(options, displayName, searchText);
      var flags := MatchFlags(options, displayName, searchText);
      forall x ensures x in Select(options, flags) <==> exists i :: 0 <= i < |options| && options[i] == x
                                                                 && NameMatches(options[i], displayName, searchText) == Ok(true) {
        SelectMembership(options, flags, x);
      }
    }
  }

  /** The local search fails exactly on an option whose display name is not a string. */
  lemma {:induction false} PrefixMatchesOk(options: seq<JsValue>, displayName: string, searchText: string)
    ensures PrefixMatches(options, displayName, searchText).Ok?
            <==> forall i :: 0 <= i < |options| ==> NameMatches(options[i], displayName, searchText).Ok?
    decreases |options|
  {
    if options != [] {
      var rest := options[1..];
      PrefixMatchesOk(rest, displayName, searchText);
      if PrefixMatches(options, displayName, searchText).Ok? {
        forall i | 0 < i < |options| ensures NameMatches(options[i], displayName, searchText).Ok? {
          assert options[i] == rest[i - 1];
        }
      } else if NameMatches(options[0], displayName, searchText).Ok? {
        var j :| 0 <= j < |rest| && !NameMatches(rest[j], displayName, searchText).Ok?;
        assert options[j + 1] == rest[j];
      }
    }
  }

  /** The flags of a sequence with a first option are that option's flag, then the rest's. */
  lemma MatchFlagsCons(options: seq<JsValue>, displayName: string, searchText: string)
    requires options != []
    ensures MatchFlags(options, displayName, searchText)
            == [NameMatches(options[0], displayName, searchText) == Ok(true)] + MatchFlags(options[1..], displayName, searchText)
  {
    var flags := MatchFlags(options, displayName, searchText);
    var tail := MatchFlags(options[1..], displayName, searchText);
    assert forall i :: 0 < i < |options| ==> flags[i] == tail[i - 1];
  }

  /** The local search is the order-keeping selection of the matching options. */
  lemma {:induction false} PrefixMatchesSelects(options: seq<JsValue>, displayName: string, searchText: string)
    requires PrefixMatches(options, displayName, searchText).Ok?
    ensures PrefixMatches(options, displayName, searchText).value == Select(options, MatchFlags(options, displayName, searchText))
    decreases |options|
  {
    if options != [] {
      var rest := options[1..];
      PrefixMatchesSelects(rest, displayName, searchText);
      var flags := MatchFlags(rest, displayName, searchText);
      var first := NameMatches(options[0], displayName, searchText) == Ok(true);
      MatchFlagsCons(options, displayName, searchText);
      SelectCons(options[0], rest, first, flags);
      assert [options[0]] + rest == options;
    }
  }

  /** An empty search text keeps every option that has a string display name. */
  lemma {:induction false} EmptyTextKeepsAll(options: seq<JsValue>, displayName: string)
    requires forall i :: 0 <= i < |options| ==> NameMatches(options[i], displayName, "").Ok?
    ensures PrefixMatches(options, displayName, "") == Ok(options)
    decreases |options|
  {
    if options != [] {
      EmptyTextKeepsAll(options[1..], displayName);
      assert NameMatches(options[0], displayName, "") == Ok(true);
      assert [options[0]] + options[1..] == options;
    }
  }

  /** `response.data.results || response.data.params.options`, or `[]` once the text is empty. */
  function RemoteResults(data: JsValue, hasQuery: bool): (r: Result<JsValue, Exception>)
    ensures !hasQuery ==> r == Ok(Arr([]))
    ensures r.Err? <==> hasQuery && (IsNullish(data) || (!Truthy(Prop(data, "results")) && IsNullish(Prop(data, "params"))))
    ensures hasQuery && !IsNullish(data) && Truthy(Prop(data, "results")) ==> r == Ok(Prop(data, "results"))
    ensures hasQuery && !IsNullish(data) && !Truthy(Prop(data, "results")) && !IsNullish(Prop(data, "params")) ==>
              r == Ok(Prop(Prop(data, "params"), "options"))
  {
    if !hasQuery then Ok(Arr([]))
    else match Get(data, "results")
      case Err(e) => Err(e)
      case Ok(results) =>
        if Truthy(results) then Ok(results)
        else match Get(Prop(data, "params"), "options")
          case Err(e) => Err(e)
          case Ok(options) => Ok(options)
  }

  /** The remote results whose key is not among the option keys, in order. */
  function NewResults(results: seq<JsValue>, keys: seq<JsValue>, optionValue: string): Result<seq<JsValue>, Exception>
    decreases |results|
  {
    if results == [] then Ok([])
    else match Get(results[0], optionValue)
      case Err(e) => Err(e)
      case Ok(key) =>
        match NewResults(results[1..], keys, optionValue)
        case Err(e) => Err(e)
        case Ok(rest) => Ok(if key in keys then rest else [results[0]] + rest)
  }

  /**
   * `[...results.filter((item) => !optionKeys.includes(item[optionValue])), ...options]`;
   * `optionKeys` is read inside the callback, so empty results never read it.
   */
  function MergeRemote(results: JsValue, options: seq<JsValue>, optionValue: string): (r: Result<seq<JsValue>, Exception>)
    ensures !results.Arr? ==> r.Err?
    ensures results == Arr([]) ==> r == Ok(options)
    ensures r.Ok? ==> |options| <= |r.value| && r.value[|r.value| - |options|..] == options
  {
    if !results.Arr? then Err(TypeError("results.filter is not a function"))
    else if results.items == [] then Ok(options)
    else match OptionKeys(options, optionValue)
      case Err(e) => Err(e)
      case Ok(keys) =>
        match NewResults(results.items, keys, optionValue)
        case Err(e) => Err(e)
        case Ok(novel) => Ok(novel + options)
  }

  /**
   * The remote filter keeps exactly the results with a key no option has,
   * and ends with every option.
   */
  lemma NewResultsSpec(results: seq<JsValue>, keys: seq<JsValue>, optionValue: string)
    ensures NewResults(results, keys, optionValue).Ok? <==> forall i :: 0 <= i < |results| ==> !IsNullish(results[i])
    ensures NewResults(results, keys, optionValue).Ok? ==>
              var r := NewResults(results, keys, optionValue).value;
              && |r| <= |results|
              && (forall x :: x in r ==> x in results && !IsNullish(x) && Prop(x, optionValue) !in keys)
              && (forall i :: 0 <= i < |results| && Prop(results[i], optionValue) !in keys ==> results[i] in r)
    ensures NewResults(results, keys, optionValue).Ok? ==>
              NewResults(results, keys, optionValue).value == Select(results, NovelFlags(results, keys, optionValue))
  {
    NewResultsOk(results, keys, optionValue);
    if NewResults(results, keys, optionValue).Ok? {
      NewResultsSelects(results, keys, optionValue);
      var r := NewResults(results, keys, optionValue).value;
      var flags := NovelFlags(results, keys, optionValue);
      forall x | x in r
        ensures x in results && !IsNullish(x) && Prop(x, optionValue) !in keys
      {
        SelectMembership(results, flags, x);
      }
      forall i | 0 <= i < |results| && Prop(results[i], optionValue) !in keys
        ensures results[i] in r
      {
        SelectMembership(results, flags, results[i]);
        assert flags[i];
      }
    }
  }

  /** The remote filter fails exactly on a result that cannot be read. */
  lemma {:induction false} NewResultsOk(results: seq<JsValue>, keys: seq<JsValue>, optionValue: string)
    ensures NewResults(results, keys, optionValue).Ok? <==> forall i :: 0 <= i < |results| ==> !IsNullish(results[i])
    decreases |results|
  {
    if results != [] {
      var rest := results[1..];
      NewResultsOk(rest, keys, optionValue);
      if NewResults(results, keys, optionValue).Ok? {
        forall i | 0 < i < |results| ensures !IsNullish(results[i]) {
          assert results[i] == rest[i - 1];
        }
      } else if !IsNullish(results[0]) {
        var j :| 0 <= j < |rest| && IsNullish(rest[j]);
        assert results[j + 1] == rest[j];
      }
    }
  }

  /** The option keys `optionKeys` holds once every option can be read. */
  function OptionProps(options: seq<JsValue>, optionValue: string): seq<JsValue>
    requires forall j :: 0 <= j < |options| ==> !IsNullish(options[j])
  {
    seq(|options|, j requires 0 <= j < |options| => Prop(options[j], optionValue))
  }

  /** Whether the remote filter keeps result `i`: it can be read and its key is not an option's. */
  function NovelFlags(results: seq<JsValue>, keys: seq<JsValue>, optionValue: string): seq<bool> {
    seq(|results|, i requires 0 <= i < |results| => !IsNullish(results[i]) && Prop(results[i], optionValue) !in keys)
  }

  /** The flags of a sequence with a first result are that result's flag, then the rest's. */
  lemma NovelFlagsCons(results: seq<JsValue>, keys: seq<JsValue>, optionValue: string)
    requires results != []
    ensures NovelFlags(results, keys, optionValue)
            == [!IsNullish(results[0]) && Prop(results[0], optionValue) !in keys] + NovelFlags(results[1..], keys, optionValue)
  {
    var flags := NovelFlags(results, keys, optionValue);
    var tail := NovelFlags(results[1..], keys, optionValue);
    assert forall i :: 0 < i < |results| ==> flags[i] == tail[i - 1];
  }

  /** The remote filter is the order-keeping selection of the results with a new key. */
  lemma {:induction false} NewResultsSelects(results: seq<JsValue>, keys: seq<JsValue>, optionValue: string)
    requires NewResults(results, keys, optionValue).Ok?
    ensures NewResults(results, keys, optionValue).value == Select(results, NovelFlags(results, keys, optionValue))
    decreases |results|
  {
    if results != [] {
      var rest := results[1..];
      NewResultsSelects(rest, keys, optionValue);
      var flags := NovelFlags(rest, keys, optionValue);
      var first := !IsNullish(results[0]) && Prop(results[0], optionValue) !in keys;
      NovelFlagsCons(results, keys, optionValue);
      SelectCons(results[0], rest, first, flags);
      assert [results[0]] + rest == results;
    }
  }

  /** Empty results leave exactly the options, whatever they hold. */
  lemma MergeEmptyResults(options: seq<JsValue>, optionValue: string)
    ensures MergeRemote(Arr([]), options, optionValue) == Ok(options)
  {
  }

  /**
   * The merge fails exactly when the results are not an array, or when they
   * are a non-empty array and an option or a result cannot be read.
   */
  lemma MergeRemoteOk(results: JsValue, options: seq<JsValue>, optionValue: string)
    ensures MergeRemote(results, options, optionValue).Ok? <==>
              results.Arr? && (results.items == [] ||
                ((forall j :: 0 <= j < |options| ==> !IsNullish(options[j]))
                 && forall i :: 0 <= i < |results.items| ==> !IsNullish(results.items[i])))
  {
    if results.Arr? && results.items != [] && OptionKeys(options, optionValue).Ok? {
      NewResultsSpec(results.items, OptionKeys(options, optionValue).value, optionValue);
    }
  }

  /**
   * The merged list is the remote results whose key no option has, in
   * response order, followed by every option.
   */
  lemma MergeRemoteSpec(results: seq<JsValue>, options: seq<JsValue>, optionValue: string)
    requires MergeRemote(Arr(results), options, optionValue).Ok?
    ensures results == [] ==> MergeRemote(Arr(results), options, optionValue).value == options
    ensures results != [] ==> forall j :: 0 <= j < |options| ==> !IsNullish(options[j])
    ensures results != [] ==>
              MergeRemote(Arr(results), options, optionValue).value
                == Select(results, NovelFlags(results, OptionProps(options, optionValue), optionValue)) + options
    ensures var r := MergeRemote(Arr(results), options, optionValue).value;
      |options| <= |r| <= |results| + |options| && r[|r| - |options|..] == options
    ensures var r := MergeRemote(Arr(results), options, optionValue).value;
      forall i :: 0 <= i < |r| - |options| ==>
        r[i] in results && !IsNullish(r[i])
        && forall j :: 0 <= j < |options| ==> Prop(r[i], optionValue) != Prop(options[j], optionValue)
  {
    if results == [] {
      MergeEmptyResults(options, optionValue);
    } else {
      MergeRemoteNovel(results, options, optionValue);
      NewResultsSelects(results, OptionProps(options, optionValue), optionValue);
      MergeRemoteFresh(results, options, optionValue);
    }
  }

  /** A non-empty merge reads every option's key, and is the new results followed by the options. */
  lemma MergeRemoteNovel(results: seq<JsValue>, options: seq<JsValue>, optionValue: string)
    requires results != [] && MergeRemote(Arr(results), options, optionValue).Ok?
    ensures forall j :: 0 <= j < |options| ==> !IsNullish(options[j])
    ensures NewResults(results, OptionProps(options, optionValue), optionValue).Ok?
    ensures MergeRemote(Arr(results), options, optionValue).value
              == NewResults(results, OptionProps(options, optionValue), optionValue).value + options
  {
    assert OptionKeys(options, optionValue).Ok?;
    assert OptionKeys(options, optionValue).value == OptionProps(options, optionValue);
  }

  /** Each merged item ahead of the options is a readable result whose key no option has. */
  lemma MergeRemoteFresh(results: seq<JsValue>, options: seq<JsValue>, optionValue: string)
    requires results != [] && MergeRemote(Arr(results), options, optionValue).Ok?
    ensures var r := MergeRemote(Arr(results), options, optionValue).value;
      |options| <= |r| <= |results| + |options| && r[|r| - |options|..] == options
    ensures var r := MergeRemote(Arr(results), options, optionValue).value;
      forall i :: 0 <= i < |r| - |options| ==>
        r[i] in results && !IsNullish(r[i])
        && forall j :: 0 <= j < |options| ==> Prop(r[i], optionValue) != Prop(options[j], optionValue)
  {
    MergeRemoteNovel(results, options, optionValue);
    var keys := OptionProps(options, optionValue);
    NewResultsSpec(results, keys, optionValue);
    var novel := NewResults(results, keys, optionValue).value;
    var r := MergeRemote(Arr(results), options, optionValue).value;
    forall i | 0 <= i < |r| - |options|
      ensures r[i] in results && !IsNullish(r[i])
      ensures forall j :: 0 <= j < |options| ==> Prop(r[i], optionValue) != Prop(options[j], optionValue)
    {
      assert r[i] == novel[i] && novel[i] in novel;
      assert forall j :: 0 <= j < |options| ==> keys[j] == Prop(options[j], optionValue);
    }
  }

  /**
   * The query of a remote search: `q`, a page size of 20 and `idformat=1`,
   * with every parameter already in the options URL taking precedence.
   */
  function SearchParams(searchText: string, urlParams: map<string, string>): (r: map<string, JsValue>)
    ensures r.Keys == urlParams.Keys + {"q", "page_size", "idformat"}
    ensures forall k :: k in urlParams ==> r[k] == Str(urlParams[k])
    ensures "q" !in urlParams ==> r["q"] == Str(searchText)
    ensures "page_size" !in urlParams ==> r["page_size"] == Num(20)
    ensures "idformat" !in urlParams ==> r["idformat"] == Num(1)
  {
    map["q" := Str(searchText), "page_size" := Num(20), "idformat" := Num(1)]
      + map k | k in urlParams :: Str(urlParams[k])
  }

  // ---------------------------------------------------------------------------
  // The component

  /** `this.request`: the `{}` it starts as, or a cancel-token source. */
  datatype RequestHandle = NoRequest | Source(id: nat)

  /** A remote search: the path asked for and its query parameters. */
  datatype Query = Query(path: string, params: map<string, JsValue>)

  /** A thrown exception or a rejection, as the `error` event carries it. */
  datatype Failure = Threw(exception: Exception) | RequestFailed(reason: JsValue)

  /** What the component emits. */
  datatype Event = SearchResults(options: seq<JsValue>) | ErrorEvent(failure: Failure) | Clear

  /** What the first half of the watcher did. */
  datatype WatchStep = WasReset | Issued(query: Query) | Filtered | FilterThrew(exception: Exception)

  /** How the request of a remote search ended. */
  datatype Outcome = Succeeded(data: JsValue) | Cancelled | Failed(reason: JsValue)

  class Searchable {
    var options: seq<JsValue>
    const optionsUrl: string
    const displayName: string
    const clearAfterSearch: bool
    /** The key that identifies an option, supplied by the component using the mixin. */
    const optionValue: string

    var localOptions: seq<JsValue>
    var searchText: string
    var inFlight: bool
    var request: RequestHandle

    /** The sources cancelled so far, oldest first. */
    var cancelled: seq<nat>
    /** The next cancel-token source to hand out. */
    var nextSource: nat
    /** The events emitted so far, oldest first. */
    var emitted: seq<Event>

    /** `request` is a source whenever a remote search is in flight, and an old one. */
    predicate Valid()
      reads this
    {
      inFlight ==> request.Source? && request.id < nextSource
    }

    /** `data()` followed by the immediate `options` watcher, which runs `resetOptions`. */
    constructor(options: seq<JsValue>, optionsUrl: string, displayName: string, clearAfterSearch: bool, optionValue: string)
      ensures Valid()
      ensures this.options == options && this.optionsUrl == optionsUrl && this.displayName == displayName
      ensures this.clearAfterSearch == clearAfterSearch && this.optionValue == optionValue
      ensures localOptions == options && searchText == "" && !inFlight && request == NoRequest
      ensures cancelled == [] && nextSource == 0 && emitted == []
    {
      this.options := options;
      this.optionsUrl := optionsUrl;
      this.displayName := displayName;
      this.clearAfterSearch := clearAfterSearch;
      this.optionValue := optionValue;
      localOptions := options;
      searchText := "";
      inFlight := false;
      request := NoRequest;
      cancelled := [];
      nextSource := 0;
      emitted := [];
    }

    /**
     * `resetOptions()`: with a text and `clearAfterSearch` it restores the
     * options and clears the text; with no text it restores the options;
     * with a text kept after searching it changes nothing.
     */
    method ResetOptions()
      modifies this`localOptions, this`searchText
      ensures old(searchText) != "" && clearAfterSearch ==> localOptions == options && searchText == ""
      ensures old(searchText) == "" ==> localOptions == options && searchText == ""
      ensures old(searchText) != "" && !clearAfterSearch ==>
                localOptions == old(localOptions) && searchText == old(searchText)
    {
      if searchText != "" && clearAfterSearch {
        localOptions := options;
        searchText := "";
      } else if searchText == "" {
        localOptions := options;
      }
    }

    /** `clearSearch()`: always restores the options and clears the text. */
    method ClearSearch()
      modifies this`localOptions, this`searchText
      ensures localOptions == options && searchText == ""
    {
      localOptions := options;
      searchText := "";
    }

    /** `clearSelection()`: `resetOptions()`, then the `clear` event. */
    method ClearSelection()
      modifies this`localOptions, this`searchText, this`emitted
      ensures old(searchText) == "" || clearAfterSearch ==> localOptions == options && searchText == ""
      ensures old(searchText) != "" && !clearAfterSearch ==>
                localOptions == old(localOptions) && searchText == old(searchText)
      ensures emitted == old(emitted) + [Clear]
    {
      ResetOptions();
      emitted := emitted + [Clear];
    }

    /** A new `options` prop: the watcher runs `resetOptions`. */
    method SetOptions(newOptions: seq<JsValue>)
      modifies this`options, this`localOptions, this`searchText
      ensures options == newOptions
      ensures old(searchText) == "" || clearAfterSearch ==> localOptions == newOptions && searchText == ""
      ensures old(searchText) != "" && !clearAfterSearch ==>
                localOptions == old(localOptions) && searchText == old(searchText)
    {
      options := newOptions;
      ResetOptions();
    }

    /** Typing: `searchText` takes the input's value (the watcher then runs). */
    method Type(text: string)
      modifies this`searchText
      ensures searchText == text
    {
      searchText := text;
    }

    /**
     * The `searchText` watcher up to its `await`: no text resets the
     * options; a remote field cancels the request in flight, takes a new
     * source and issues the query; a local field filters by prefix.
     */
    method SearchTextChanged(urlPath: string, urlParams: map<string, string>) returns (step: WatchStep)
      requires Valid()
      modifies this
      ensures Valid()
      ensures options == old(options) && emitted == old(emitted)
      ensures !HasQuery(old(searchText)) ==>
                step == WasReset && localOptions == options && searchText == ""
                && inFlight == old(inFlight) && request == old(request)
                && cancelled == old(cancelled) && nextSource == old(nextSource)
      ensures HasQuery(old(searchText)) && optionsUrl != "" ==>
                && step == Issued(Query(urlPath, SearchParams(searchText, urlParams)))
                && searchText == old(searchText) && localOptions == old(localOptions)
                && cancelled == old(cancelled) + (if old(inFlight) then [old(request).id] else [])
                && inFlight && request == Source(old(nextSource)) && nextSource == old(nextSource) + 1
      ensures HasQuery(old(searchText)) && optionsUrl == "" ==>
                && searchText == old(searchText)
                && inFlight == old(inFlight) && request == old(request)
                && cancelled == old(cancelled) && nextSource == old(nextSource)
                && match PrefixMatches(options, displayName, searchText)
                   case Ok(kept) => step == Filtered && localOptions == kept
                   case Err(e) => step == FilterThrew(e) && localOptions == old(localOptions)
    {
      if !HasQuery(searchText) {
        ResetOptions();
        return WasReset;
      }
      if optionsUrl != "" {
        if inFlight && request.Source? {
          cancelled := cancelled + [request.id];
        }
        inFlight := true;
        request := Source(nextSource);
        nextSource := nextSource + 1;
        return Issued(Query(urlPath, SearchParams(searchText, urlParams)));
      }
      match PrefixMatches(options, displayName, searchText)
      case Ok(kept) =>
        localOptions := kept;
        step := Filtered;
      case Err(e) =>
        step := FilterThrew(e);
    }

    /**
     * The watcher after its `await`: success clears `inFlight`, merges the
     * remote results before the options and emits them; a cancelled request
     * does nothing; any other failure, or an exception while merging, emits
     * `error`.
     */
    method ReceiveResponse(outcome: Outcome)
      requires Valid()
      modifies this`inFlight, this`localOptions, this`emitted
      ensures Valid()
      ensures outcome.Cancelled? ==> inFlight == old(inFlight) && localOptions == old(localOptions) && emitted == old(emitted)
      ensures outcome.Failed? ==> inFlight == old(inFlight) && localOptions == old(localOptions)
                                  && emitted == old(emitted) + [ErrorEvent(RequestFailed(outcome.reason))]
      ensures outcome.Succeeded? ==>
                && !inFlight
                && match RemoteResults(outcome.data, HasQuery(searchText))
                   case Err(e) => localOptions == old(localOptions) && emitted == old(emitted) + [ErrorEvent(Threw(e))]
                   case Ok(results) =>
                     match MergeRemote(results, options, optionValue)
                     case Err(e) => localOptions == old(localOptions) && emitted == old(emitted) + [ErrorEvent(Threw(e))]
                     case Ok(merged) => localOptions == merged && emitted == old(emitted) + [SearchResults(merged)]
    {
      match outcome
      case Cancelled =>
      case Failed(reason) =>
        emitted := emitted + [ErrorEvent(RequestFailed(reason))];
      case Succeeded(data) =>
        inFlight := false;
        match RemoteResults(data, HasQuery(searchText))
        case Err(e) =>
          emitted := emitted + [ErrorEvent(Threw(e))];
        case Ok(results) =>
          match MergeRemote(results, options, optionValue)
          case Err(e) =>
            emitted := emitted + [ErrorEvent(Threw(e))];
          case Ok(merged) =>
            localOptions := merged;
            emitted := emitted + [SearchResults(localOptions)];
    }
  }

  /** Two searches in a row: the second cancels the first's request. */
  method SecondSearchCancelsFirst(s: Searchable, path: string)
    requires s.Valid() && s.optionsUrl != ""
    modifies s
    ensures s.cancelled == old(s.cancelled) + (if old(s.inFlight) then [old(s.request).id] else []) + [old(s.nextSource)]
  {
    s.Type("a");
    var first := s.SearchTextChanged(path, map[]);
    s.Type("ab");
    var second := s.SearchTextChanged(path, map[]);
  }
}
