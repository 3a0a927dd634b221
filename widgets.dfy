/** The accordion and the dropdown menus, each reduced to the `active` flags
    of its items, in document order. */
module Widgets {

  /** No two items are open at once. */
  predicate AtMostOneActive(s: seq<bool>) {
    forall i, j :: 0 <= i < |s| && 0 <= j < |s| && s[i] && s[j] ==> i == j
  }

  /** The flags after a click on item `k`: everything closed, then `k` opened
      when it was closed before. So at most one item is open: the clicked one,
      exactly when it was closed, and every other item is closed. */
  function Toggled(s: seq<bool>, k: nat): (t: seq<bool>)
    requires k < |s|
    ensures |t| == |s|
    ensures AtMostOneActive(t)
    ensures t[k] <==> !s[k]
    ensures forall i :: 0 <= i < |s| && i != k ==> !t[i]
  {
    seq(|s|, i requires 0 <= i < |s| => i == k && !s[k])
  }

  /** Clicking a closed item twice opens it and then closes everything. */
  lemma OpenThenClose(s: seq<bool>, k: nat)
    requires k < |s| && !s[k]
    ensures forall i :: 0 <= i < |s| ==> !Toggled(Toggled(s, k), k)[i]
  {
  }

  /** A click on an item closes whatever other item was open: with a single
      open item, a click on a different item moves the open state there. */
  lemma ToggleMovesOpenItem(s: seq<bool>, j: nat, k: nat)
    requires j < |s| && k < |s| && j != k && s[j] && AtMostOneActive(s)
    ensures Toggled(s, k)[k] && !Toggled(s, k)[j]
  {
  }

  /** `toggleAccordion`: the clicked item's state is read, every item of the
      accordion is closed, and the clicked one is opened when it was closed. */
  method ToggleAccordion(items: array<bool>, clicked: nat)
    requires clicked < items.Length
    modifies items
    ensures items[..] == Toggled(old(items[..]), clicked)
  {
    var isActive := items[clicked];
    var i := 0;
    while i < items.Length
      invariant 0 <= i <= items.Length
      invariant forall j :: 0 <= j < i ==> !items[j]
      invariant forall j :: i <= j < items.Length ==> items[j] == old(items[j])
    {
      items[i] := false;
      i := i + 1;
    }
    if !isActive {
      items[clicked] := true;
    }
  }

  /** `closeAllDropdowns`: every dropdown is closed. */
  method CloseAllDropdowns(dropdowns: array<bool>)
    modifies dropdowns
    ensures forall i :: 0 <= i < dropdowns.Length ==> !dropdowns[i]
  {
    var i := 0;
    while i < dropdowns.Length
      invariant 0 <= i <= dropdowns.Length
      invariant forall j :: 0 <= j < i ==> !dropdowns[j]
    {
      dropdowns[i] := false;
      i := i + 1;
    }
  }

  /** `toggleDropdown`: the same rule as the accordion, over all dropdowns of
      the page. */
  method ToggleDropdown(dropdowns: array<bool>, clicked: nat)
    requires clicked < dropdowns.Length
    modifies dropdowns
    ensures dropdowns[..] == Toggled(old(dropdowns[..]), clicked)
  {
    var isActive := dropdowns[clicked];
    CloseAllDropdowns(dropdowns);
    if !isActive {
      dropdowns[clicked] := true;
    }
  }

  /** The document's click listener: a click outside every dropdown closes them
      all; a click inside one leaves the flags to that dropdown's handler. */
  method OnDocumentClick(dropdowns: array<bool>, insideDropdown: bool)
    modifies dropdowns
    ensures !insideDropdown ==> forall i :: 0 <= i < dropdowns.Length ==> !dropdowns[i]
    ensures insideDropdown ==> dropdowns[..] == old(dropdowns[..])
  {
    if !insideDropdown {
      CloseAllDropdowns(dropdowns);
    }
  }
}
