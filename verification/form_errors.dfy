/** `getFormFieldErrors` of the account page: the messages shown under one
    form field, one per validation error key of its control. */
module FormErrors {
  import opened Wrappers

  /** One enumerable key of a control's `errors` object; `own` is false for a
      key reached through the prototype chain, which `hasOwnProperty` skips.
      Error values are modelled as strings. */
  datatype ErrorEntry = ErrorEntry(key: string, value: string, own: bool)

  /** A form control; `errors` is `null` when the control is valid, otherwise
      its keys in enumeration order. */
  datatype Control = Control(errors: Option<seq<ErrorEntry>>)

  /** A form group, looked up by field name with `form.get`. */
  type Form = map<string, Control>

  const RequiredMessage: string := "This field is required."
  const EmailMessage: string := "Invalid email format."

  /** The message for one error key: fixed texts for "required", "email" and
      "pattern", and the error's own value for any other key. */
  function MessageFor(entry: ErrorEntry): string {
    match entry.key
    case "required" => RequiredMessage
    case "email" => EmailMessage
    case "pattern" => ""
    case _ => entry.value
  }

  /** The entries the loop keeps: the control's own keys, in order. */
  function OwnEntries(entries: seq<ErrorEntry>): seq<ErrorEntry> {
    if |entries| == 0 then []
    else (if entries[0].own then [entries[0]] else []) + OwnEntries(entries[1..])
  }

  /** The error entries of field `fieldName`, or none when the control is missing
      or reports no errors. */
  function FieldEntries(form: Form, fieldName: string): seq<ErrorEntry> {
    if fieldName in form && form[fieldName].errors.Some? then form[fieldName].errors.value else []
  }

  /** The loop over the error keys: one message per own key, in key order. */
  method GetFormFieldErrors(form: Form, fieldName: string) returns (errors: seq<string>)
    ensures fieldName !in form ==> errors == []
    ensures fieldName in form && form[fieldName].errors == None ==> errors == []
    ensures var keys := OwnEntries(FieldEntries(form, fieldName));
            && |errors| == |keys|
            && (forall i :: 0 <= i < |keys| && keys[i].key == "required" ==> errors[i] == RequiredMessage)
            && (forall i :: 0 <= i < |keys| && keys[i].key == "email" ==> errors[i] == EmailMessage)
            && (forall i :: 0 <= i < |keys| && keys[i].key == "pattern" ==> errors[i] == "")
            && (forall i :: 0 <= i < |keys| && keys[i].key !in {"required", "email", "pattern"} ==> errors[i] == keys[i].value)
  {
    errors := [];
    var control := if fieldName in form then Some(form[fieldName]) else None;
    if control.Some? && control.value.errors.Some? {
      var entries := control.value.errors.value;
      ghost var kept: seq<ErrorEntry> := [];
      var k := 0;
      while k < |entries|
        invariant 0 <= k <= |entries|
        invariant kept + OwnEntries(entries[k..]) == OwnEntries(entries)
        invariant |errors| == |kept|
        invariant forall i :: 0 <= i < |kept| ==> errors[i] == MessageFor(kept[i])
      {
        assert entries[k..][1..] == entries[k + 1..];
        if entries[k].own {
          errors := errors + [MessageFor(entries[k])];
          kept := kept + [entries[k]];
        }
        k := k + 1;
      }
      assert kept == OwnEntries(entries);
      assert forall i :: 0 <= i < |kept| ==> errors[i] == MessageFor(kept[i]);
    }
  }

  /** Only the control's own keys contribute, each once and in order: a
      control whose keys are all its own contributes every key. */
  lemma {:induction false} OwnEntriesOfOwnKeys(entries: seq<ErrorEntry>)
    requires forall i :: 0 <= i < |entries| ==> entries[i].own
    ensures OwnEntries(entries) == entries
    decreases |entries|
  {
    if |entries| > 0 {
      var rest := entries[1..];
      assert forall i :: 0 <= i < |rest| ==> rest[i] == entries[i + 1];
      OwnEntriesOfOwnKeys(rest);
      assert entries == [entries[0]] + rest;
    }
  }

  /** A key contributes a message exactly when it is one of the control's own keys. */
  lemma {:induction false} OwnEntriesMembership(entries: seq<ErrorEntry>, e: ErrorEntry)
    ensures e in OwnEntries(entries) <==> e in entries && e.own
    decreases |entries|
  {
    if |entries| > 0 {
      var rest := entries[1..];
      var head := if entries[0].own then [entries[0]] else [];
      OwnEntriesMembership(rest, e);
      assert OwnEntries(entries) == head + OwnEntries(rest);
      assert e in head + OwnEntries(rest) <==> e in head || e in OwnEntries(rest);
      assert e in entries <==> e == entries[0] || e in rest by {
        assert entries == [entries[0]] + rest;
      }
    }
  }
}
