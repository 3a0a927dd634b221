/** `validateFormData`: a form is accepted only when every value is more than
    white space. */
module Forms {
  import opened Strings
  import opened Wrappers

  /** `!value.trim()`. */
  predicate Blank(value: string) {
    |Trim(value)| == 0
  }

  /** The form's entries in order, as `Object.entries` lists them. The entries
      are checked from the first; the first blank value stops the check with
      the message `"<key> is required"`. */
  method ValidateFormData(entries: seq<(string, string)>) returns (valid: bool, error: Option<string>)
    ensures valid <==> forall i :: 0 <= i < |entries| ==> !Blank(entries[i].1)
    ensures valid ==> error == None
    ensures !valid ==> exists k ::
      && 0 <= k < |entries| && Blank(entries[k].1)
      && (forall j :: 0 <= j < k ==> !Blank(entries[j].1))
      && error == Some(entries[k].0 + " is required")
  {
    var i := 0;
    while i < |entries|
      invariant 0 <= i <= |entries|
      invariant forall j :: 0 <= j < i ==> !Blank(entries[j].1)
    {
      var key := entries[i].0;
      var value := entries[i].1;
      if Blank(value) {
        return false, Some(key + " is required");
      }
      i := i + 1;
    }
    return true, None;
  }

  /** A value is blank exactly when it is all white space, so a form passes
      exactly when each value holds some other character. */
  lemma BlankIffAllSpace(value: string)
    ensures Blank(value) <==> AllSpace(value)
  {
    TrimEmptyIffAllSpace(value);
  }
}
