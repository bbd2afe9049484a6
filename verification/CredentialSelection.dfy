/** Presenting several assertions to the untrusted UI under opaque names, and finding the
    one the user picked. */
module CredentialSelection {
  import opened Basics
  import opened Authenticator

  /** Building the list panics on an assertion without a credential ID. */
  predicate Presentable(assertions: seq<Assertion>) {
    forall a :: a in assertions ==> a.credentialId.Some?
  }

  function Present(assertions: seq<Assertion>, hash: Hash): seq<string>
    requires Presentable(assertions)
  {
    seq(|assertions|, i requires 0 <= i < |assertions| =>
      assert assertions[i] in assertions;
      hash(assertions[i].credentialId.value))
  }

  predicate Matches(a: Assertion, hash: Hash, chosen: string) {
    a.credentialId.Some? && hash(a.credentialId.value) == chosen
  }

  /** The first assertion whose hashed ID is the chosen string. */
  function Find(assertions: seq<Assertion>, hash: Hash, chosen: string): Option<Assertion> {
    if assertions == [] then None
    else if Matches(assertions[0], hash, chosen) then Some(assertions[0])
    else Find(assertions[1..], hash, chosen)
  }

  /** `Find` takes the earliest match, and fails only when there is none. */
  lemma {:induction false} FindsEarliest(assertions: seq<Assertion>, hash: Hash, chosen: string)
    ensures Find(assertions, hash, chosen) == None <==>
            forall a :: a in assertions ==> !Matches(a, hash, chosen)
    ensures Find(assertions, hash, chosen).Some? ==>
              exists i :: 0 <= i < |assertions|
                && assertions[i] == Find(assertions, hash, chosen).value
                && Matches(assertions[i], hash, chosen)
                && forall j :: 0 <= j < i ==> !Matches(assertions[j], hash, chosen)
  {
    if assertions != [] && !Matches(assertions[0], hash, chosen) {
      var rest := assertions[1..];
      FindsEarliest(rest, hash, chosen);
      assert forall a :: a in assertions <==> a == assertions[0] || a in rest;
      if Find(rest, hash, chosen).Some? {
        var i :| 0 <= i < |rest| && rest[i] == Find(rest, hash, chosen).value
                 && Matches(rest[i], hash, chosen)
                 && forall j :: 0 <= j < i ==> !Matches(rest[j], hash, chosen);
        assert assertions[i + 1] == rest[i];
        assert forall j :: 0 < j < i + 1 ==> assertions[j] == rest[j - 1];
      }
    }
  }

  /** A string is answered with an assertion exactly when it is one of the presented ones, and
      the assertion found is presented under that very string. */
  lemma SelectionInvertsPresentation(assertions: seq<Assertion>, hash: Hash, chosen: string)
    requires Presentable(assertions)
    ensures Find(assertions, hash, chosen).Some? <==> chosen in Present(assertions, hash)
    ensures Find(assertions, hash, chosen).Some? ==>
              && Find(assertions, hash, chosen).value in assertions
              && Matches(Find(assertions, hash, chosen).value, hash, chosen)
  {
    FindsEarliest(assertions, hash, chosen);
    var shown := Present(assertions, hash);
    assert forall i :: 0 <= i < |assertions| ==>
      (Matches(assertions[i], hash, chosen) <==> shown[i] == chosen);
  }

  /** Picking an entry always yields the assertion behind it exactly when entries shown under
      the same string are the same assertion. */
  lemma EveryEntryLeadsBackIff(assertions: seq<Assertion>, hash: Hash)
    requires Presentable(assertions)
    ensures (forall i :: 0 <= i < |assertions| ==>
               Find(assertions, hash, Present(assertions, hash)[i]) == Some(assertions[i]))
       <==> (forall a, b :: a in assertions && b in assertions && a != b ==>
               hash(a.credentialId.value) != hash(b.credentialId.value))
  {
    var shown := Present(assertions, hash);
    forall i | 0 <= i < |assertions|
      ensures Matches(assertions[i], hash, shown[i])
      ensures Find(assertions, hash, shown[i]).Some?
      ensures Matches(Find(assertions, hash, shown[i]).value, hash, shown[i])
      ensures Find(assertions, hash, shown[i]).value in assertions
    {
      FindsEarliest(assertions, hash, shown[i]);
      assert assertions[i] in assertions;
    }
    if forall i :: 0 <= i < |assertions| ==> Find(assertions, hash, shown[i]) == Some(assertions[i]) {
      forall a, b | a in assertions && b in assertions && a != b
        ensures hash(a.credentialId.value) != hash(b.credentialId.value)
      {
        var i :| 0 <= i < |assertions| && assertions[i] == a;
        var j :| 0 <= j < |assertions| && assertions[j] == b;
        assert shown[i] == hash(a.credentialId.value) && shown[j] == hash(b.credentialId.value);
      }
    }
  }
}
