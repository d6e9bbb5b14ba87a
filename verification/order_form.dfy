/**
 * The order form: member id and name, prefilled from the last order, are
 * persisted on submit as soon as the id is not blank, and handed to the
 * caller only when both are not blank.
 */
module OrderForm {
  import opened Options
  import opened JsText

  const LastIdKey: string := "last_order_member_id"
  const LastNameKey: string := "last_order_member_name"

  /** `s.trim()` is not empty. */
  predicate Filled(s: string)
  {
    Trim(s) != []
  }

  /** A stored value replaces the field only when it is a nonempty string. */
  function Prefill(stored: Option<string>, current: string): (r: string)
    ensures stored.Some? && stored.value != "" ==> r == stored.value
    ensures stored.None? || stored.value == "" ==> r == current
  {
    if stored.Some? && stored.value != "" then stored.value else current
  }

  datatype SubmitOutcome = Ignored | Incomplete | Submitted

  /** The form's fields, the device storage, and the calls made to `onSubmit`. */
  class Form {
    var memberId: string
    var memberName: string
    var storage: map<string, string>
    var submissions: seq<(string, string)>

    constructor (storage: map<string, string>)
      ensures memberId == "" && memberName == "" && this.storage == storage && submissions == []
    {
      memberId := "";
      memberName := "";
      this.storage := storage;
      submissions := [];
    }

    /** The mount effect: stored id and name prefill the fields only when present. */
    method Mount()
      modifies this
      ensures memberId == Prefill(if LastIdKey in old(storage) then Some(old(storage)[LastIdKey]) else None, old(memberId))
      ensures memberName == Prefill(if LastNameKey in old(storage) then Some(old(storage)[LastNameKey]) else None, old(memberName))
      ensures storage == old(storage) && submissions == old(submissions)
    {
      var lastId := if LastIdKey in storage then Some(storage[LastIdKey]) else None;
      var lastName := if LastNameKey in storage then Some(storage[LastNameKey]) else None;
      memberId := Prefill(lastId, memberId);
      memberName := Prefill(lastName, memberName);
    }

    /**
     * `handleSubmit`: a blank id does nothing. Otherwise both fields are
     * stored first, even a blank name, and only then is the name checked;
     * `onSubmit` gets the untrimmed values when both are filled.
     */
    method HandleSubmit() returns (outcome: SubmitOutcome)
      modifies this
      ensures memberId == old(memberId) && memberName == old(memberName)
      ensures outcome == Ignored <==> !Filled(memberId)
      ensures outcome == Ignored ==> storage == old(storage)
      ensures outcome != Ignored ==> storage == old(storage)[LastIdKey := memberId][LastNameKey := memberName]
      ensures outcome == Submitted <==> Filled(memberId) && Filled(memberName)
      ensures outcome == Submitted ==> submissions == old(submissions) + [(memberId, memberName)]
      ensures outcome != Submitted ==> submissions == old(submissions)
    {
      var id, name := memberId, memberName;
      if !Filled(id) {
        return Ignored;
      }
      storage := storage[LastIdKey := id];
      storage := storage[LastNameKey := name];
      if !Filled(id) || !Filled(name) {
        return Incomplete;
      }
      submissions := submissions + [(id, name)];
      outcome := Submitted;
    }
  }

  /** A field counts as filled exactly when it holds a character that is not white space. */
  lemma FilledIffNotBlank(s: string)
    ensures Filled(s) <==> exists i :: 0 <= i < |s| && !IsWhitespace(s[i])
  {
    TrimEmptyIffBlank(s);
  }

  /**
   * Submitting with a filled id and a blank name persists both values and
   * reports the missing name; a form mounted later over that storage
   * prefills the id but leaves its name empty, since a stored empty name is
   * ignored.
   */
  method BlankNameIsPersisted(id: string, storage: map<string, string>)
    returns (outcome: SubmitOutcome, stored: map<string, string>, remounted: (string, string))
    requires Filled(id)
    ensures outcome == Incomplete
    ensures LastIdKey in stored && stored[LastIdKey] == id
    ensures LastNameKey in stored && stored[LastNameKey] == ""
    ensures remounted == (id, "")
  {
    var form := new Form(storage);
    form.memberId := id;
    outcome := form.HandleSubmit();
    stored := form.storage;
    var next := new Form(stored);
    next.Mount();
    remounted := (next.memberId, next.memberName);
  }
}
