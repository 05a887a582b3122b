/** The registered-appliance list of the Settings page (App.jsx:46, 950-1034):
    an ordered list of names kept free of duplicates by `addAppliance` and
    shrunk by the remove buttons. */
module Appliances {
  import Seqs

  /** The list the app starts with. */
  const DefaultAppliances: seq<string> := ["Fridge", "AC", "TV", "Washing Machine"]

  /** No name occurs twice. */
  predicate Distinct(xs: seq<string>) {
    forall i, j :: 0 <= i < j < |xs| ==> xs[i] != xs[j]
  }

  /** The result of a click on "Add": the new list and the text left in the
      input box. */
  datatype AddResult = AddResult(appliances: seq<string>, draft: string)

  /** `addAppliance()`: a non-empty draft that is not yet listed is appended at
      the end and the input box is cleared; otherwise nothing changes. */
  function AddAppliance(apps: seq<string>, draft: string): (r: AddResult)
    ensures Distinct(apps) ==> Distinct(r.appliances)
    ensures forall x :: x in r.appliances <==> x in apps || (x == draft && |draft| > 0)
    ensures |apps| <= |r.appliances| && r.appliances[..|apps|] == apps
    ensures r.appliances != apps <==> |draft| > 0 && draft !in apps
    ensures r.draft == if r.appliances == apps then draft else ""
  {
    if |draft| > 0 && draft !in apps then AddResult(apps + [draft], "")
    else AddResult(apps, draft)
  }

  /** The remove button, `appliances.filter(a => a !== name)`. */
  function RemoveAppliance(apps: seq<string>, name: string): (r: seq<string>)
    ensures forall x :: x in r <==> x in apps && x != name
    ensures multiset(r) == multiset(apps)[name := 0]
    ensures |r| <= |apps|
  {
    if |apps| == 0 then []
    else
      assert apps == [apps[0]] + apps[1..];
      (if apps[0] == name then [] else [apps[0]]) + RemoveAppliance(apps[1..], name)
  }

  /** Removing keeps the remaining names in their order: the result is a
      subsequence of the list, hence still duplicate-free. */
  lemma {:induction false} RemoveKeepsDistinct(apps: seq<string>, name: string)
    requires Distinct(apps)
    ensures Distinct(RemoveAppliance(apps, name))
  {
    if |apps| > 0 {
      RemoveKeepsDistinct(apps[1..], name);
      var rest := RemoveAppliance(apps[1..], name);
      assert apps[0] !in apps[1..];
      assert apps[0] !in rest;
    }
  }

  /** Removing a name that is not listed changes nothing. */
  lemma {:induction false} RemoveAbsent(apps: seq<string>, name: string)
    requires name !in apps
    ensures RemoveAppliance(apps, name) == apps
  {
    if |apps| > 0 {
      RemoveAbsent(apps[1..], name);
      assert [apps[0]] + apps[1..] == apps;
    }
  }

  /** Filtering distributes over concatenation. */
  lemma {:induction false} RemoveConcat(a: seq<string>, b: seq<string>, name: string)
    ensures RemoveAppliance(a + b, name) == RemoveAppliance(a, name) + RemoveAppliance(b, name)
  {
    if |a| > 0 {
      var head: seq<string> := if a[0] == name then [] else [a[0]];
      assert (a + b)[0] == a[0];
      assert (a + b)[1..] == a[1..] + b;
      calc {
        RemoveAppliance(a + b, name);
        head + RemoveAppliance(a[1..] + b, name);
        { RemoveConcat(a[1..], b, name); }
        head + (RemoveAppliance(a[1..], name) + RemoveAppliance(b, name));
        { Seqs.Assoc(head, RemoveAppliance(a[1..], name), RemoveAppliance(b, name)); }
        (head + RemoveAppliance(a[1..], name)) + RemoveAppliance(b, name);
        RemoveAppliance(a, name) + RemoveAppliance(b, name);
      }
    } else {
      assert a + b == b;
    }
  }

  /** Adding a new name and then removing it restores the list. */
  lemma AddThenRemove(apps: seq<string>, draft: string)
    requires |draft| > 0 && draft !in apps
    ensures RemoveAppliance(AddAppliance(apps, draft).appliances, draft) == apps
  {
    RemoveConcat(apps, [draft], draft);
    RemoveAbsent(apps, draft);
    assert RemoveAppliance([draft], draft) == [];
  }

  /** A second click on "Add" with the same text changes nothing. */
  lemma AddIdempotent(apps: seq<string>, draft: string)
    ensures AddAppliance(AddAppliance(apps, draft).appliances, draft).appliances ==
            AddAppliance(apps, draft).appliances
  {
  }

  /** A click on "Add" with the given input text, or on a name's remove button. */
  datatype Edit = Add(draft: string) | Remove(name: string)

  /** The list after a sequence of clicks. */
  function ApplyEdits(apps: seq<string>, edits: seq<Edit>): seq<string>
    decreases |edits|
  {
    if |edits| == 0 then apps
    else
      match edits[0]
      case Add(draft) => ApplyEdits(AddAppliance(apps, draft).appliances, edits[1..])
      case Remove(name) => ApplyEdits(RemoveAppliance(apps, name), edits[1..])
  }

  /** Every sequence of adds and removes keeps a duplicate-free list so. */
  lemma {:induction false} EditsKeepDistinct(apps: seq<string>, edits: seq<Edit>)
    requires Distinct(apps)
    ensures Distinct(ApplyEdits(apps, edits))
    decreases |edits|
  {
    if |edits| > 0 {
      match edits[0]
      case Add(draft) => EditsKeepDistinct(AddAppliance(apps, draft).appliances, edits[1..]);
      case Remove(name) =>
        RemoveKeepsDistinct(apps, name);
        EditsKeepDistinct(RemoveAppliance(apps, name), edits[1..]);
    }
  }

  /** The default list is duplicate-free, so the Settings list always is. */
  lemma DefaultsDistinct()
    ensures Distinct(DefaultAppliances)
  {
  }
}
