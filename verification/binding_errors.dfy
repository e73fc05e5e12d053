/** The response factory for requests whose body could not be bound: every
    error recorded in model state becomes one field error of a 400 envelope. */
module BindingErrors {
  import opened Wrappers
  import opened Text
  import opened Contracts

  /** One model-state entry: its key and, when the entry has a value, the
      messages of its errors in order. */
  datatype ModelStateEntry = ModelStateEntry(key: string, errors: Option<seq<string>>)

  const BindingCode: string := "INVALID"
  const FallbackMessage: string := "Invalid value."

  /** The entry has at least one error (`Value?.Errors.Count > 0`). */
  predicate HasErrors(e: ModelStateEntry) {
    e.errors.Some? && |e.errors.value| > 0
  }

  /** A blank message is replaced by the fallback. */
  function BindingMessage(m: string): (t: string)
    ensures !AllWhiteSpace(t)
    ensures !AllWhiteSpace(m) ==> t == m
  {
    if AllWhiteSpace(m) then
      assert FallbackMessage[0] == 'I';
      FallbackMessage
    else m
  }

  /** The field errors of one entry, keyed by the raw model-state key. */
  function EntryErrors(e: ModelStateEntry): (out: seq<ApiFieldError>)
    ensures !HasErrors(e) ==> out == []
    ensures HasErrors(e) ==> |out| == |e.errors.value|
  {
    if !HasErrors(e) then []
    else
      var msgs := e.errors.value;
      seq(|msgs|, i requires 0 <= i < |msgs| => ApiFieldError(e.key, BindingCode, BindingMessage(msgs[i])))
  }

  /** All entries' field errors, entry after entry. */
  function Flatten(entries: seq<ModelStateEntry>): seq<ApiFieldError> {
    if |entries| == 0 then [] else EntryErrors(entries[0]) + Flatten(entries[1..])
  }

  /** The 400 envelope built from model state. */
  function BindingEnvelope(entries: seq<ModelStateEntry>, traceId: string): (r: ApiErrorResponse)
    ensures r.code == ValidationFailedCode && r.message == ValidationFailedMessage && r.traceId == traceId
  {
    ApiErrorResponse(ValidationFailedCode, ValidationFailedMessage, Flatten(entries), traceId)
  }

  // ---------------------------------------------------------------------------
  // Reference counts

  /** The number of errors recorded across the entries. */
  function ErrorCount(entries: seq<ModelStateEntry>): nat {
    if |entries| == 0 then 0
    else (if entries[0].errors.Some? then |entries[0].errors.value| else 0) + ErrorCount(entries[1..])
  }

  /** The entries that have errors, in order. */
  function WithErrors(entries: seq<ModelStateEntry>): (out: seq<ModelStateEntry>)
    ensures forall e :: e in out <==> e in entries && HasErrors(e)
  {
    if |entries| == 0 then []
    else (if HasErrors(entries[0]) then [entries[0]] else []) + WithErrors(entries[1..])
  }

  // ---------------------------------------------------------------------------
  // Properties

  /** One field error per recorded error. */
  lemma {:induction false} OneFieldErrorPerError(entries: seq<ModelStateEntry>)
    ensures |Flatten(entries)| == ErrorCount(entries)
  {
    if |entries| > 0 {
      OneFieldErrorPerError(entries[1..]);
    }
  }

  /** The list is empty exactly when no entry has an error. */
  lemma {:induction false} FlattenEmptyIff(entries: seq<ModelStateEntry>)
    ensures Flatten(entries) == [] <==> forall e :: e in entries ==> !HasErrors(e)
  {
    if |entries| > 0 {
      FlattenEmptyIff(entries[1..]);
      assert forall e :: e in entries <==> e == entries[0] || e in entries[1..];
    }
  }

  /** Flattening distributes over concatenation, so entry order is kept. */
  lemma {:induction false} FlattenConcat(a: seq<ModelStateEntry>, b: seq<ModelStateEntry>)
    ensures Flatten(a + b) == Flatten(a) + Flatten(b)
  {
    if |a| == 0 {
      assert a + b == b;
    } else {
      FlattenConcat(a[1..], b);
      FlattenHead(a, b);
      var x := EntryErrors(a[0]);
      assert x + (Flatten(a[1..]) + Flatten(b)) == (x + Flatten(a[1..])) + Flatten(b);
    }
  }

  /** One unfolding of `Flatten` on a concatenation. */
  lemma FlattenHead(a: seq<ModelStateEntry>, b: seq<ModelStateEntry>)
    requires |a| > 0
    ensures Flatten(a + b) == EntryErrors(a[0]) + Flatten(a[1..] + b)
  {
    assert (a + b)[0] == a[0] && (a + b)[1..] == a[1..] + b;
  }

  /** Entries without errors contribute nothing. */
  lemma {:induction false} OnlyEntriesWithErrorsCount(entries: seq<ModelStateEntry>)
    ensures Flatten(entries) == Flatten(WithErrors(entries))
  {
    if |entries| > 0 {
      OnlyEntriesWithErrorsCount(entries[1..]);
      var head: seq<ModelStateEntry> := if HasErrors(entries[0]) then [entries[0]] else [];
      FlattenConcat(head, WithErrors(entries[1..]));
      assert Flatten([entries[0]]) == EntryErrors(entries[0]) + Flatten([]);
    }
  }

  /** Every field error has the code INVALID, a non-blank message and the key
      of an entry that has errors; a non-blank message is passed through. */
  lemma {:induction false} FieldErrorsShape(entries: seq<ModelStateEntry>)
    ensures forall x :: x in Flatten(entries) ==>
      && x.errorCode == BindingCode
      && !AllWhiteSpace(x.message)
      && exists e :: e in entries && HasErrors(e) && x.field == e.key
  {
    if |entries| > 0 {
      FieldErrorsShape(entries[1..]);
      forall x | x in Flatten(entries)
        ensures x.errorCode == BindingCode && !AllWhiteSpace(x.message)
        ensures exists e :: e in entries && HasErrors(e) && x.field == e.key
      {
        if x in EntryErrors(entries[0]) {
          assert entries[0] in entries;
        } else {
          assert x in Flatten(entries[1..]);
          var e :| e in entries[1..] && HasErrors(e) && x.field == e.key;
          assert e in entries;
        }
      }
    }
  }

  /** The error at position `i` of an entry keeps that error's message unless it is blank. */
  lemma MessageKept(e: ModelStateEntry, i: int)
    requires HasErrors(e) && 0 <= i < |e.errors.value|
    ensures EntryErrors(e)[i] == ApiFieldError(e.key, BindingCode,
      if AllWhiteSpace(e.errors.value[i]) then FallbackMessage else e.errors.value[i])
  {
  }
}
