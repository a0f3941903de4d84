/**
 * The free helper functions of `api.js`: normalising a server's form errors,
 * keying a list by id, partitioning settled requests, renumbering a dragged
 * list, the `ordering` query-string pair and the persisted test.
 */
module ApiHelpers {
  import opened Wrappers
  import opened JsValues

  // ---------------------------------------------------------------------------
  // parseFormErrorsGeneric

  /** The key under which Django REST framework reports errors not tied to a field. */
  const NonFieldErrors: string := "non_field_errors"
  /** The message a missing related object produces ... */
  const InvalidHyperlink: string := "Invalid hyperlink - Object does not exist."
  /** ... and the message shown in its place. */
  const FieldRequired: string := "This field is required."

  /** `{formFieldErrors, formAlertMessages}`. */
  datatype FormErrors = FormErrors(fieldErrors: map<string, JsValue>, alertMessages: seq<JsValue>)

  /** `{message: errorMsg, type: 'error'}`. */
  function Alert(message: JsValue): JsValue {
    Obj(map["message" := message, "type" := Str("error")])
  }

  /** The alerts for the non-field messages, one each and in order. */
  function Alerts(messages: seq<JsValue>): (r: seq<JsValue>)
    ensures |r| == |messages| && forall i :: 0 <= i < |messages| ==> r[i] == Alert(messages[i])
  {
    seq(|messages|, i requires 0 <= i < |messages| => Alert(messages[i]))
  }

  /** What is stored for a field: its own value, or the required message for a dead hyperlink. */
  function FieldError(value: JsValue): JsValue {
    if Get(value, "0") == Ok(Str(InvalidHyperlink)) then Arr([Str(FieldRequired)]) else value
  }

  /**
   * The payload can be walked: `non_field_errors`, when present, is an array
   * (it is iterated with `forEach`), and no other value is null or undefined
   * (its element `0` is read).
   */
  predicate Walkable(fields: map<string, JsValue>) {
    && (NonFieldErrors in fields ==> fields[NonFieldErrors].Arr?)
    && forall k :: k in fields && k != NonFieldErrors ==> !IsNullish(fields[k])
  }

  /** The errors a payload yields when walked. */
  function PayloadErrors(data: JsValue): Result<FormErrors, Exception> {
    if IsNullish(data) then Err(TypeError("cannot convert undefined or null to object"))
    else FieldsErrors(OwnProperties(data))
  }

  /** The errors the entries of a payload yield. */
  function FieldsErrors(fields: map<string, JsValue>): Result<FormErrors, Exception> {
    if !Walkable(fields) then Err(TypeError("cannot read the error payload"))
    else Ok(FormErrors(
      map k | k in fields && k != NonFieldErrors :: FieldError(fields[k]),
      if NonFieldErrors in fields then Alerts(fields[NonFieldErrors].items) else []))
  }

  /**
   * `parseFormErrorsGeneric(error, isNetworkError)`: a null error reads as
   * `{}`; without a truthy `response` a network error yields only its
   * message; otherwise the payload is `response.data`, or the error itself.
   */
  function FormErrorsOf(error: JsValue, isNetworkError: bool): (r: Result<FormErrors, Exception>)
    ensures error == Undefined ==> r.Err?
    ensures error == Null ==> r.Ok?
  {
    var e := if error == Null then Obj(map[]) else error;
    match Get(e, "response")
    case Err(x) => Err(x)
    case Ok(response) =>
      if !Truthy(response) && isNetworkError then Ok(FormErrors(map[], [Prop(e, "message")]))
      else PayloadErrors(if Truthy(response) then Prop(response, "data") else e)
  }

  /** A network error without a response yields its raw message as the only alert. */
  lemma NetworkErrorKeepsMessage(fields: map<string, JsValue>)
    requires "response" !in fields || !Truthy(fields["response"])
    ensures FormErrorsOf(Obj(fields), true)
            == Ok(FormErrors(map[], [if "message" in fields then fields["message"] else Undefined]))
  {
  }

  /** `null` is read as `{}`: one alert, `undefined`, and no field errors. */
  lemma NullNetworkError()
    ensures FormErrorsOf(Null, true) == Ok(FormErrors(map[], [Undefined]))
    ensures FormErrorsOf(Null, false) == Ok(FormErrors(map[], []))
  {
    assert OwnProperties(Obj(map[])) == map[];
  }

  /** A thrown value that is `undefined` has no `response` to read. */
  lemma UndefinedErrorThrows(isNetworkError: bool)
    ensures FormErrorsOf(Undefined, isNetworkError).Err?
    ensures FormErrorsOf(Undefined, isNetworkError).error.TypeError?
  {
  }

  /**
   * A response payload that is an object: the fields are every key but
   * `non_field_errors`, each with its value or the required message, and the
   * alerts wrap the non-field messages in order. It fails exactly when the
   * payload cannot be walked.
   */
  lemma ResponsePayload(response: map<string, JsValue>, fields: map<string, JsValue>, isNetworkError: bool)
    requires "data" in response && response["data"] == Obj(fields)
    ensures var r := FormErrorsOf(Obj(map["response" := Obj(response)]), isNetworkError);
      && (r.Ok? <==> Walkable(fields))
      && (r.Ok? ==>
            && r.value.fieldErrors.Keys == fields.Keys - {NonFieldErrors}
            && (forall k :: k in r.value.fieldErrors ==>
                  r.value.fieldErrors[k] == (if Get(fields[k], "0") == Ok(Str(InvalidHyperlink))
                                             then Arr([Str(FieldRequired)]) else fields[k]))
            && (NonFieldErrors in fields ==>
                  |r.value.alertMessages| == |fields[NonFieldErrors].items|
                  && forall i :: 0 <= i < |r.value.alertMessages| ==>
                       r.value.alertMessages[i] == Obj(map["message" := fields[NonFieldErrors].items[i], "type" := Str("error")]))
            && (NonFieldErrors !in fields ==> r.value.alertMessages == []))
  {
  }

  /** A list headed by the dead-hyperlink message becomes exactly the required message. */
  lemma HyperlinkBecomesRequired(rest: seq<JsValue>)
    ensures FieldError(Arr([Str(InvalidHyperlink)] + rest)) == Arr([Str(FieldRequired)])
  {
    GetFirstOfArray([Str(InvalidHyperlink)] + rest);
  }

  /** Any other list is copied unchanged. */
  lemma OtherListsCopied(items: seq<JsValue>)
    requires items == [] || items[0] != Str(InvalidHyperlink)
    ensures FieldError(Arr(items)) == Arr(items)
  {
    if items != [] {
      GetFirstOfArray(items);
    } else {
      assert OwnProperties(Arr([])) == map[];
    }
  }

  /**
   * The payload walk of `parseFormErrorsGeneric`: each key is visited once,
   * filling the field errors and pushing the alerts; a value that cannot be
   * walked throws. Keys are visited in no particular order, which decides
   * only which of several faults is reported.
   */
  method WalkPayload(data: JsValue) returns (r: Result<FormErrors, Exception>)
    ensures r.Ok? <==> PayloadErrors(data).Ok?
    ensures r.Ok? ==> r == PayloadErrors(data)
  {
    if IsNullish(data) {
      return Err(TypeError("cannot convert undefined or null to object"));
    }
    r := WalkFields(OwnProperties(data));
  }

  /** The `forEach` over `Object.entries(data)`. */
  method WalkFields(fields: map<string, JsValue>) returns (r: Result<FormErrors, Exception>)
    ensures r.Ok? <==> Walkable(fields)
    ensures r.Ok? ==> r == FieldsErrors(fields)
  {
    var remaining := fields.Keys;
    var done: set<string> := {};
    var fieldErrors: map<string, JsValue> := map[];
    var alerts: seq<JsValue> := [];
    while remaining != {}
      invariant done <= fields.Keys && remaining == fields.Keys - done
      invariant WalkableOver(fields, done)
      invariant fieldErrors == FieldErrorsOver(fields, done)
      invariant alerts == AlertsOver(fields, done)
      decreases |remaining|
    {
      var key :| key in remaining;
      var value := fields[key];
      if key == NonFieldErrors {
        if !value.Arr? {
          return Err(TypeError("value.forEach is not a function"));
        }
        alerts := PushAlerts(value.items);
      } else {
        if IsNullish(value) {
          return Err(TypeError("cannot read properties of null"));
        }
        fieldErrors := fieldErrors[key := FieldError(value)];
      }
      VisitKey(fields, done, key);
      remaining := remaining - {key};
      done := done + {key};
    }
    assert done == fields.Keys;
    WalkComplete(fields);
    r := Ok(FormErrors(fieldErrors, alerts));
  }

  /** The field errors from the keys visited so far. */
  function FieldErrorsOver(fields: map<string, JsValue>, done: set<string>): map<string, JsValue> {
    map k | k in done && k in fields && k != NonFieldErrors :: FieldError(fields[k])
  }

  /** The alerts pushed so far. */
  function AlertsOver(fields: map<string, JsValue>, done: set<string>): seq<JsValue>
    requires WalkableOver(fields, done)
  {
    if NonFieldErrors in done && NonFieldErrors in fields then Alerts(fields[NonFieldErrors].items) else []
  }

  /** No key visited so far made the walk throw. */
  predicate WalkableOver(fields: map<string, JsValue>, done: set<string>) {
    && (NonFieldErrors in done && NonFieldErrors in fields ==> fields[NonFieldErrors].Arr?)
    && forall k :: k in done && k in fields && k != NonFieldErrors ==> !IsNullish(fields[k])
  }

  /** Visiting one more key: what it adds, and whether it throws. */
  lemma VisitKey(fields: map<string, JsValue>, done: set<string>, key: string)
    requires key in fields && key !in done && WalkableOver(fields, done)
    ensures WalkableOver(fields, done + {key}) <==>
              if key == NonFieldErrors then fields[key].Arr? else !IsNullish(fields[key])
    ensures !WalkableOver(fields, done + {key}) ==> !Walkable(fields)
    ensures WalkableOver(fields, done + {key}) ==>
              && FieldErrorsOver(fields, done + {key})
                 == (if key == NonFieldErrors then FieldErrorsOver(fields, done)
                     else FieldErrorsOver(fields, done)[key := FieldError(fields[key])])
              && AlertsOver(fields, done + {key})
                 == (if key == NonFieldErrors then Alerts(fields[key].items) else AlertsOver(fields, done))
  {
  }

  /** Once every key is visited, the walk has built what the payload yields. */
  lemma WalkComplete(fields: map<string, JsValue>)
    requires WalkableOver(fields, fields.Keys)
    ensures Walkable(fields)
    ensures FieldsErrors(fields) == Ok(FormErrors(FieldErrorsOver(fields, fields.Keys), AlertsOver(fields, fields.Keys)))
  {
    assert FieldErrorsOver(fields, fields.Keys) == map k | k in fields && k != NonFieldErrors :: FieldError(fields[k]);
  }

  /** The `forEach` over `non_field_errors`, pushing one alert per message. */
  method PushAlerts(messages: seq<JsValue>) returns (alerts: seq<JsValue>)
    ensures alerts == Alerts(messages)
  {
    alerts := [];
    var i := 0;
    while i < |messages|
      invariant 0 <= i <= |messages|
      invariant alerts == Alerts(messages[..i])
    {
      alerts := alerts + [Alert(messages[i])];
      i := i + 1;
    }
    assert messages[..i] == messages;
  }

  /** `parseFormErrorsGeneric(error, isNetworkError)`. */
  method ParseFormErrorsGeneric(error: JsValue, isNetworkError: bool) returns (r: Result<FormErrors, Exception>)
    ensures r.Ok? <==> FormErrorsOf(error, isNetworkError).Ok?
    ensures r.Ok? ==> r == FormErrorsOf(error, isNetworkError)
  {
    var e := if error == Null then Obj(map[]) else error;
    var response := Get(e, "response");
    if response.Err? {
      return Err(response.error);
    }
    if !Truthy(response.value) && isNetworkError {
      return Ok(FormErrors(map[], [Prop(e, "message")]));
    }
    var data := if Truthy(response.value) then Prop(response.value, "data") else e;
    r := WalkPayload(data);
  }

  // ---------------------------------------------------------------------------
  // keyById

  /** The `idKey` argument: a property name or a function of the item. */
  datatype IdKey = KeyName(name: string) | KeyFn(f: JsValue -> JsValue)

  /** The key an item is filed under, as the property key it becomes. */
  function ItemKey(item: JsValue, idKey: IdKey): Result<string, Exception> {
    match idKey
    case KeyFn(f) => Ok(ToJsString(f(item)))
    case KeyName(name) =>
      match Get(item, name)
      case Err(e) => Err(e)
      case Ok(id) => Ok(ToJsString(id))
  }

  /** The `reduce` of `keyById` over the items, left to right. */
  function KeyItems(items: seq<JsValue>, idKey: IdKey): Result<map<string, JsValue>, Exception>
    decreases |items|
  {
    if items == [] then Ok(map[])
    else
      match KeyItems(items[..|items| - 1], idKey)
      case Err(e) => Err(e)
      case Ok(acc) =>
        match ItemKey(items[|items| - 1], idKey)
        case Err(e) => Err(e)
        case Ok(k) => Ok(acc[k := Spread(items[|items| - 1])])
  }

  /** `keyById(arrayList, idKey)`: anything but an array throws. */
  function KeyById(arrayList: JsValue, idKey: IdKey): (r: Result<map<string, JsValue>, Exception>)
    ensures !arrayList.Arr? ==> r == Err(Error("Expected an Array, but got " + TypeOf(arrayList)))
    ensures r.Ok? <==> arrayList.Arr? && AllKeyed(arrayList.items, idKey)
  {
    if !arrayList.Arr? then Err(Error("Expected an Array, but got " + TypeOf(arrayList)))
    else
      KeyItemsOk(arrayList.items, idKey);
      KeyItems(arrayList.items, idKey)
  }

  /** Every item has a key. */
  predicate AllKeyed(items: seq<JsValue>, idKey: IdKey) {
    forall i :: 0 <= i < |items| ==> ItemKey(items[i], idKey).Ok?
  }

  /** The reduce succeeds exactly when every item has a key. */
  lemma {:induction false} KeyItemsOk(items: seq<JsValue>, idKey: IdKey)
    ensures KeyItems(items, idKey).Ok? <==> AllKeyed(items, idKey)
    decreases |items|
  {
    if items != [] {
      var front := items[..|items| - 1];
      KeyItemsOk(front, idKey);
      assert forall i :: 0 <= i < |front| ==> front[i] == items[i];
    }
  }

  /** The keys of the result are exactly the items' keys. */
  lemma {:induction false} KeyItemsKeys(items: seq<JsValue>, idKey: IdKey, k: string)
    requires KeyItems(items, idKey).Ok?
    ensures k in KeyItems(items, idKey).value <==> exists i :: 0 <= i < |items| && ItemKey(items[i], idKey) == Ok(k)
    decreases |items|
  {
    if items != [] {
      var n := |items| - 1;
      var front := items[..n];
      KeyItemsKeys(front, idKey, k);
      if k in KeyItems(front, idKey).value {
        var i :| 0 <= i < |front| && ItemKey(front[i], idKey) == Ok(k);
        assert ItemKey(items[i], idKey) == Ok(k);
      }
      if exists i :: 0 <= i < |items| && ItemKey(items[i], idKey) == Ok(k) {
        var i :| 0 <= i < |items| && ItemKey(items[i], idKey) == Ok(k);
        if i < n {
          assert ItemKey(front[i], idKey) == Ok(k);
        }
      }
    }
  }

  /** A key holds a copy of the LAST item with that key: later duplicates win. */
  lemma {:induction false} KeyItemsLastWins(items: seq<JsValue>, idKey: IdKey, i: nat)
    requires KeyItems(items, idKey).Ok? && i < |items|
    requires forall j :: i < j < |items| ==> ItemKey(items[j], idKey) != ItemKey(items[i], idKey)
    ensures ItemKey(items[i], idKey).Ok? && ItemKey(items[i], idKey).value in KeyItems(items, idKey).value
    ensures KeyItems(items, idKey).value[ItemKey(items[i], idKey).value] == Spread(items[i])
    decreases |items|
  {
    var n := |items| - 1;
    var front := items[..n];
    KeyItemsOk(items, idKey);
    KeyItemsKeys(items, idKey, ItemKey(items[i], idKey).value);
    if i < n {
      forall j | i < j < |front| ensures ItemKey(front[j], idKey) != ItemKey(front[i], idKey) {
        assert front[j] == items[j];
      }
      KeyItemsLastWins(front, idKey, i);
      assert front[i] == items[i];
    }
  }

  /** A list whose items all lack a usable key name fails only when an item is null or undefined. */
  lemma KeyByNameFails(items: seq<JsValue>, name: string)
    ensures AllKeyed(items, KeyName(name)) <==> forall i :: 0 <= i < |items| ==> !IsNullish(items[i])
  {
  }

  // ---------------------------------------------------------------------------
  // resolveNetworkRequests

  /** How one request settled: `{status: 'fulfilled', value}` or `{status: 'rejected', reason}`. */
  datatype Settled = FulfilledWith(value: JsValue) | RejectedWith(reason: JsValue)

  /** `{results, errors}`. */
  datatype Partition = Partition(results: seq<JsValue>, errors: seq<JsValue>)

  /**
   * Files `v` under `k` in an object's entries: a new key goes last, an
   * existing key keeps its place and takes the new value.
   */
  function PutEntry<V>(entries: seq<(string, V)>, k: string, v: V): (r: seq<(string, V)>)
    ensures |r| == |entries| || |r| == |entries| + 1
  {
    if entries == [] then [(k, v)]
    else if entries[0].0 == k then [(k, v)] + entries[1..]
    else [entries[0]] + PutEntry(entries[1..], k, v)
  }

  /** `Object.entries(zipObject(keys, responses))`; a key past the responses gets `undefined`. */
  function ZipEntries(keys: seq<string>, responses: seq<Settled>): seq<(string, Option<Settled>)>
    decreases |keys|
  {
    if keys == [] then []
    else
      var n := |keys| - 1;
      PutEntry(ZipEntries(keys[..n], responses), keys[n], if n < |responses| then Some(responses[n]) else None)
  }

  /** The reducer `settledPromisesReducer`, folded over the entries. */
  function Reduce(entries: seq<(string, Option<Settled>)>, acc: Partition): Result<Partition, Exception>
    decreases |entries|
  {
    if entries == [] then Ok(acc)
    else
      var (key, response) := entries[0];
      match response
      case None => Err(TypeError("cannot read properties of undefined (reading 'status')"))
      case Some(RejectedWith(reason)) =>
        Reduce(entries[1..], acc.(errors := acc.errors + [Obj(map[key := reason])]))
      case Some(FulfilledWith(value)) =>
        match Get(value, "data")
        case Err(e) => Err(e)
        case Ok(data) => Reduce(entries[1..], acc.(results := acc.results + [data]))
  }

  /** `resolveNetworkRequests(promises, keys)`, after every promise has settled. */
  function ResolveNetworkRequests(responses: seq<Settled>, keys: seq<string>): (r: Result<Partition, Exception>)
    ensures |keys| > |responses| ==> r.Err?
  {
    var entries := ZipEntries(keys, responses);
    ZipMissing(keys, responses);
    ReduceMissing(entries, Partition([], []));
    Reduce(entries, Partition([], []))
  }

  /** The entry of the last key past the responses has no response. */
  lemma ZipMissing(keys: seq<string>, responses: seq<Settled>)
    ensures |keys| > |responses| ==> exists i :: 0 <= i < |ZipEntries(keys, responses)| && ZipEntries(keys, responses)[i].1.None?
  {
    if |keys| > |responses| {
      var n := |keys| - 1;
      var z := ZipEntries(keys, responses);
      assert z == PutEntry(ZipEntries(keys[..n], responses), keys[n], None);
      PutEntryPlaces(ZipEntries(keys[..n], responses), keys[n], None);
      var i :| 0 <= i < |z| && z[i] == (keys[n], None);
      assert z[i].1.None?;
    }
  }

  /** Filing a value puts it under its key. */
  lemma {:induction false} PutEntryPlaces<V>(entries: seq<(string, V)>, k: string, v: V)
    ensures (k, v) in PutEntry(entries, k, v)
    decreases |entries|
  {
    if entries != [] && entries[0].0 != k {
      PutEntryPlaces(entries[1..], k, v);
    }
  }

  /** An entry without a response anywhere makes the reducer throw. */
  lemma {:induction false} ReduceMissing(entries: seq<(string, Option<Settled>)>, acc: Partition)
    ensures (exists i :: 0 <= i < |entries| && entries[i].1.None?) ==> Reduce(entries, acc).Err?
    decreases |entries|
  {
    if exists i :: 0 <= i < |entries| && entries[i].1.None? {
      var i :| 0 <= i < |entries| && entries[i].1.None?;
      if entries[0].1.Some? {
        var rest := entries[1..];
        assert rest[i - 1].1.None?;
        match entries[0].1.value
        case RejectedWith(reason) =>
          ReduceMissing(rest, acc.(errors := acc.errors + [Obj(map[entries[0].0 := reason])]));
        case FulfilledWith(value) =>
          if Get(value, "data").Ok? {
            ReduceMissing(rest, acc.(results := acc.results + [Get(value, "data").value]));
          }
      }
    }
  }

  /** The fulfilled outcomes' data, in order (a reference for the reducer). */
  function FulfilledData(entries: seq<(string, Option<Settled>)>): seq<JsValue>
    requires forall i :: 0 <= i < |entries| ==> entries[i].1.Some?
    requires forall i :: 0 <= i < |entries| ==> entries[i].1.value.FulfilledWith? ==> !IsNullish(entries[i].1.value.value)
  {
    if entries == [] then []
    else (if entries[0].1.value.FulfilledWith? then [Prop(entries[0].1.value.value, "data")] else [])
         + FulfilledData(entries[1..])
  }

  /** The rejected outcomes as `{[key]: reason}`, in order. */
  function RejectedErrors(entries: seq<(string, Option<Settled>)>): seq<JsValue>
    requires forall i :: 0 <= i < |entries| ==> entries[i].1.Some?
  {
    if entries == [] then []
    else (if entries[0].1.value.RejectedWith? then [Obj(map[entries[0].0 := entries[0].1.value.reason])] else [])
         + RejectedErrors(entries[1..])
  }

  /**
   * With every entry settled and every response defined, the reducer splits
   * the entries into the fulfilled data and the keyed rejections, each in
   * order, and no entry is lost.
   */
  lemma {:induction false} ReducePartitions(entries: seq<(string, Option<Settled>)>, acc: Partition)
    requires forall i :: 0 <= i < |entries| ==> entries[i].1.Some?
    requires forall i :: 0 <= i < |entries| ==> entries[i].1.value.FulfilledWith? ==> !IsNullish(entries[i].1.value.value)
    ensures Reduce(entries, acc) == Ok(Partition(acc.results + FulfilledData(entries), acc.errors + RejectedErrors(entries)))
    ensures |FulfilledData(entries)| + |RejectedErrors(entries)| == |entries|
    decreases |entries|
  {
    if entries == [] {
      assert acc.results + [] == acc.results && acc.errors + [] == acc.errors;
    } else {
      var rest := entries[1..];
      assert forall i :: 0 <= i < |rest| ==> rest[i] == entries[i + 1];
      match entries[0].1.value
      case RejectedWith(reason) =>
        var e := Obj(map[entries[0].0 := reason]);
        assert Reduce(entries, acc) == Reduce(rest, acc.(errors := acc.errors + [e]));
        ReducePartitions(rest, acc.(errors := acc.errors + [e]));
        assert RejectedErrors(entries) == [e] + RejectedErrors(rest);
        assert FulfilledData(entries) == FulfilledData(rest);
        assert acc.errors + [e] + RejectedErrors(rest) == acc.errors + RejectedErrors(entries);
      case FulfilledWith(value) =>
        var data := Prop(value, "data");
        assert Get(value, "data") == Ok(data);
        assert Reduce(entries, acc) == Reduce(rest, acc.(results := acc.results + [data]));
        ReducePartitions(rest, acc.(results := acc.results + [data]));
        assert FulfilledData(entries) == [data] + FulfilledData(rest);
        assert RejectedErrors(entries) == RejectedErrors(rest);
        assert acc.results + [data] + FulfilledData(rest) == acc.results + FulfilledData(entries);
    }
  }

  /** A key beyond the settled requests has no response, and reading its status throws. */
  lemma MissingResponseThrows(entries: seq<(string, Option<Settled>)>, acc: Partition)
    requires |entries| > 0 && entries[0].1.None?
    ensures Reduce(entries, acc).Err?
  {
  }

  /** Distinct keys keep their order, each paired with its own response. */
  lemma {:induction false} ZipDistinct(keys: seq<string>, responses: seq<Settled>)
    requires |keys| <= |responses|
    requires forall i, j :: 0 <= i < j < |keys| ==> keys[i] != keys[j]
    ensures ZipEntries(keys, responses) == seq(|keys|, i requires 0 <= i < |keys| => (keys[i], Some(responses[i])))
    decreases |keys|
  {
    if keys != [] {
      var n := |keys| - 1;
      ZipDistinct(keys[..n], responses);
      PutNewEntry(ZipEntries(keys[..n], responses), keys[n], Some(responses[n]));
    }
  }

  /**
   * With distinct keys, no more keys than responses and no null fulfilled
   * value, the result is the fulfilled data and the keyed rejections, each
   * in key order, one per key.
   */
  lemma ResolveNetworkRequestsSpec(responses: seq<Settled>, keys: seq<string>)
    requires |keys| <= |responses|
    requires forall i, j :: 0 <= i < j < |keys| ==> keys[i] != keys[j]
    requires forall i :: 0 <= i < |keys| && responses[i].FulfilledWith? ==> !IsNullish(responses[i].value)
    ensures var entries := seq(|keys|, i requires 0 <= i < |keys| => (keys[i], Some(responses[i])));
      && ResolveNetworkRequests(responses, keys) == Ok(Partition(FulfilledData(entries), RejectedErrors(entries)))
      && |FulfilledData(entries)| + |RejectedErrors(entries)| == |keys|
  {
    var entries := seq(|keys|, i requires 0 <= i < |keys| => (keys[i], Some(responses[i])));
    ZipDistinct(keys, responses);
    ReducePartitions(entries, Partition([], []));
    assert [] + FulfilledData(entries) == FulfilledData(entries);
    assert [] + RejectedErrors(entries) == RejectedErrors(entries);
  }

  lemma {:induction false} PutNewEntry<V>(entries: seq<(string, V)>, k: string, v: V)
    requires forall i :: 0 <= i < |entries| ==> entries[i].0 != k
    ensures PutEntry(entries, k, v) == entries + [(k, v)]
    decreases |entries|
  {
    if entries != [] {
      PutNewEntry(entries[1..], k, v);
      assert [entries[0]] + (entries[1..] + [(k, v)]) == entries + [(k, v)];
    }
  }

  // ---------------------------------------------------------------------------
  // reorderBetween

  /** `{...item, order}` on a shallow copy. */
  function WithOrder(item: JsValue, order: int): JsValue {
    Obj(OwnProperties(item)["order" := Num(order)])
  }

  /** The renumbered range: both indices ordered, or the whole list when either is undefined. */
  function Bounds(length: nat, index1: Option<int>, index2: Option<int>): (int, int) {
    if index1.None? || index2.None? then (0, length - 1)
    else if index2.value < index1.value then (index2.value, index1.value)
    else (index1.value, index2.value)
  }

  /**
   * What `reorderBetween(items, index1, index2)` returns: copies of the
   * items, those in the range renumbered by position. A non-empty range
   * reaching outside the list throws.
   */
  function Reordered(items: seq<JsValue>, index1: Option<int>, index2: Option<int>): (r: Result<seq<JsValue>, Exception>)
    ensures r.Err? ==> index1.Some? && index2.Some?
    ensures r.Ok? ==> |r.value| == |items|
    ensures r.Ok? ==> forall i :: 0 <= i < |items| ==>
              r.value[i].Obj? && OwnProperties(items[i]).Keys <= r.value[i].fields.Keys <= OwnProperties(items[i]).Keys + {"order"}
  {
    var (lo, hi) := Bounds(|items|, index1, index2);
    if lo <= hi && (lo < 0 || hi >= |items|) then Err(TypeError("cannot set properties of undefined (setting 'order')"))
    else Ok(seq(|items|, i requires 0 <= i < |items| => if lo <= i <= hi then WithOrder(items[i], i) else Spread(items[i])))
  }

  /** `reorderBetween`: a loop renumbering the copies in place. */
  method ReorderBetween(items: seq<JsValue>, index1: Option<int>, index2: Option<int>) returns (r: Result<seq<JsValue>, Exception>)
    ensures r == Reordered(items, index1, index2)
  {
    var updated := new JsValue[|items|](i requires 0 <= i < |items| => Spread(items[i]));
    var (lo, hi) := Bounds(|items|, index1, index2);
    var i := lo;
    while i <= hi
      invariant lo <= i && (i <= hi + 1 || i == lo)
      invariant i > lo ==> 0 <= lo && i <= updated.Length
      invariant forall k :: 0 <= k < updated.Length ==>
                  updated[k] == if lo <= k < i then WithOrder(items[k], k) else Spread(items[k])
      decreases hi - i
    {
      if i < 0 || i >= updated.Length {
        return Err(TypeError("cannot set properties of undefined (setting 'order')"));
      }
      updated[i] := WithOrder(updated[i], i);
      i := i + 1;
    }
    var expected := Reordered(items, index1, index2);
    assert expected.Ok? && |expected.value| == updated.Length;
    assert forall k :: 0 <= k < |items| ==> updated[k] == expected.value[k];
    assert updated[..] == expected.value;
    r := Ok(updated[..]);
  }

  /** The list keeps its length. */
  lemma ReorderedLength(items: seq<JsValue>, index1: Option<int>, index2: Option<int>)
    ensures Reordered(items, index1, index2).Ok? ==> |Reordered(items, index1, index2).value| == |items|
  {
  }

  /** Swapping the two indices changes nothing. */
  lemma ReorderedSymmetric(items: seq<JsValue>, index1: Option<int>, index2: Option<int>)
    ensures Reordered(items, index1, index2) == Reordered(items, index2, index1)
  {
  }

  /**
   * Between the two indices every object item gets its position as `order`;
   * outside them every object item is an equal copy.
   */
  lemma ReorderedRange(items: seq<JsValue>, index1: int, index2: int, i: int)
    requires 0 <= i < |items| && items[i].Obj?
    requires Reordered(items, Some(index1), Some(index2)).Ok?
    ensures var r := Reordered(items, Some(index1), Some(index2)).value;
      && (index1 <= i <= index2 || index2 <= i <= index1 ==> r[i] == Obj(items[i].fields["order" := Num(i)]))
      && (!(index1 <= i <= index2 || index2 <= i <= index1) ==> r[i] == items[i])
  {
  }

  /** With an index missing, every item is numbered by position. */
  lemma ReorderedAll(items: seq<JsValue>, index: Option<int>)
    ensures Reordered(items, None, index) == Ok(seq(|items|, i requires 0 <= i < |items| => WithOrder(items[i], i)))
  {
    var all := seq(|items|, i requires 0 <= i < |items| => WithOrder(items[i], i));
    assert Bounds(|items|, None, index) == (0, |items| - 1);
    assert Reordered(items, None, index).Ok?;
    var r := Reordered(items, None, index).value;
    assert |r| == |all|;
    assert forall i :: 0 <= i < |items| ==> r[i] == all[i];
    assert r == all;
  }

  /** A range that leaves the list throws. */
  lemma ReorderedOutOfRange(items: seq<JsValue>, index1: int, index2: int)
    requires index1 < 0 || index2 >= |items|
    requires index1 <= index2
    ensures Reordered(items, Some(index1), Some(index2)).Err?
  {
  }

  // ---------------------------------------------------------------------------
  // The `ordering` query parameter of django-filter

  /** The two values of `orderChoices`. */
  datatype OrderDir = Asc | Desc

  /** `djangoFilterOrderingDeserialize(orderByString)`. */
  function Deserialize(orderByString: string): (r: (string, OrderDir))
    ensures r.1 == Desc <==> |orderByString| > 0 && orderByString[0] == '-'
    ensures |r.0| == |orderByString| - (if r.1 == Desc then 1 else 0)
    ensures r.0 == orderByString[|orderByString| - |r.0|..]
  {
    if |orderByString| > 0 && orderByString[0] == '-' then (orderByString[1..], Desc)
    else (orderByString, Asc)
  }

  /** `djangoFilterOrderingSerialize({orderBy, orderDir})`. */
  function Serialize(orderBy: string, orderDir: OrderDir): (r: string)
    ensures |r| == |orderBy| + (if orderDir == Desc then 1 else 0)
    ensures r[|r| - |orderBy|..] == orderBy
    ensures orderDir == Desc ==> r[0] == '-'
  {
    (if orderDir == Desc then "-" else "") + orderBy
  }

  /** Every ordering string survives a round trip. */
  lemma SerializeDeserialize(s: string)
    ensures Serialize(Deserialize(s).0, Deserialize(s).1) == s
  {
    if |s| > 0 && s[0] == '-' {
      assert "-" + s[1..] == s;
    }
  }

  /** A pair survives the other round trip unless an ascending field name itself starts with `-`. */
  lemma DeserializeSerialize(orderBy: string, orderDir: OrderDir)
    ensures Deserialize(Serialize(orderBy, orderDir)) == (orderBy, orderDir)
            <==> !(orderDir == Asc && |orderBy| > 0 && orderBy[0] == '-')
  {
    if orderDir == Desc {
      assert ("-" + orderBy)[1..] == orderBy;
    } else {
      assert "" + orderBy == orderBy;
    }
  }

  // ---------------------------------------------------------------------------
  // isPersisted

  /** `isPersisted({id})`: persisted unless the id is a string; no argument throws. */
  function IsPersisted(item: JsValue): (r: Result<bool, Exception>)
    ensures r.Err? <==> IsNullish(item)
    ensures r.Ok? ==> (r.value <==> !(item.Obj? && "id" in item.fields && item.fields["id"].Str?))
  {
    assert !('0' <= "id"[0] <= '9');
    NamedKeyOnlyOnObjects(item, "id");
    match Get(item, "id")
    case Err(e) => Err(e)
    case Ok(id) => Ok(!IsString(id))
  }
}
