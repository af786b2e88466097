/**
 * Customer suggestions for the name field: the receipts whose customer name
 * matches the search term, at most ten, with repeated (name, phone) pairs
 * removed. The database query is a parameter: `matches` is what the
 * `ilike` filter returns, in the database's order.
 */
module CustomerSuggestions {

  datatype Suggestion = Suggestion(customer_name: string, customer_phone: string)

  /** `.limit(10)`. */
  const Limit := 10

  /** `enabled`: the query runs only for a term of two or more characters. */
  predicate Enabled(searchTerm: string) {
    |searchTerm| >= 2
  }

  // ---------------------------------------------------------------------
  // The deduplication as a specification function
  // ---------------------------------------------------------------------

  /** The `reduce`: keep an entry only when no equal entry was kept before it. */
  function Dedup(s: seq<Suggestion>): (r: seq<Suggestion>)
    ensures |r| <= |s|
    decreases |s|
  {
    if s == [] then []
    else
      var kept := Dedup(s[..|s| - 1]);
      if s[|s| - 1] in kept then kept else kept + [s[|s| - 1]]
  }

  predicate NoDuplicates(s: seq<Suggestion>) {
    forall a, b :: 0 <= a < b < |s| ==> s[a] != s[b]
  }

  /** Where `x` first occurs in `s`. */
  function FirstIndex(s: seq<Suggestion>, x: Suggestion): (k: nat)
    requires x in s
    ensures k < |s| && s[k] == x
    ensures forall i :: 0 <= i < k ==> s[i] != x
    decreases |s|
  {
    if s[0] == x then 0 else 1 + FirstIndex(s[1..], x)
  }

  lemma FirstIndexExtend(s: seq<Suggestion>, y: Suggestion, x: Suggestion)
    requires x in s
    ensures x in s + [y] && FirstIndex(s + [y], x) == FirstIndex(s, x)
  {
    var k := FirstIndex(s, x);
    var k' := FirstIndex(s + [y], x);
    assert (s + [y])[k] == x;
    assert k' <= k;
  }

  /**
   * The deduplicated list has no repeated entry, holds exactly the entries
   * of the input, and lists them in the order of their first occurrences.
   */
  lemma DedupCorrect(s: seq<Suggestion>)
    ensures var r := Dedup(s);
      && NoDuplicates(r)
      && (forall x :: x in r <==> x in s)
      && |r| <= |s|
      && forall a, b :: 0 <= a < b < |r| ==> FirstIndex(s, r[a]) < FirstIndex(s, r[b])
  {
    DedupMembers(s);
    DedupOrder(s);
  }

  /** No repeats, the same entries, and no longer than the input. */
  lemma {:induction false} DedupMembers(s: seq<Suggestion>)
    ensures var r := Dedup(s);
      NoDuplicates(r) && (forall x :: x in r <==> x in s) && |r| <= |s|
    decreases |s|
  {
    if s != [] {
      var n := |s| - 1;
      assert s == s[..n] + [s[n]];
      DedupMembers(s[..n]);
    }
  }

  /** Entries appear in the order of their first occurrences in the input. */
  lemma {:induction false} DedupOrder(s: seq<Suggestion>)
    ensures var r := Dedup(s);
      (forall x :: x in r ==> x in s) && forall a, b :: 0 <= a < b < |r| ==> FirstIndex(s, r[a]) < FirstIndex(s, r[b])
    decreases |s|
  {
    DedupMembers(s);
    if s != [] {
      var n := |s| - 1;
      var p := s[..n];
      var x := s[n];
      assert s == p + [x];
      DedupOrder(p);
      DedupMembers(p);
      var kept := Dedup(p);
      forall y | y in kept ensures FirstIndex(s, y) == FirstIndex(p, y) {
        FirstIndexExtend(p, x, y);
      }
      if x !in kept {
        assert x !in p;
        assert FirstIndex(s, x) == n;
      }
    }
  }

  // ---------------------------------------------------------------------
  // The deduplication as the source runs it
  // ---------------------------------------------------------------------

  /** `acc.find(...)`: a linear scan for an equal entry. */
  method Find(acc: seq<Suggestion>, curr: Suggestion) returns (exists_: bool)
    ensures exists_ <==> curr in acc
  {
    var j := 0;
    while j < |acc|
      invariant 0 <= j <= |acc|
      invariant curr !in acc[..j]
    {
      if acc[j].customer_name == curr.customer_name && acc[j].customer_phone == curr.customer_phone {
        return true;
      }
      assert acc[..j + 1] == acc[..j] + [acc[j]];
      j := j + 1;
    }
    assert acc[..j] == acc;
    return false;
  }

  /** `data.reduce(...)`: push each entry that `find` does not see. */
  method Unique(data: seq<Suggestion>) returns (acc: seq<Suggestion>)
    ensures acc == Dedup(data)
  {
    acc := [];
    var i := 0;
    while i < |data|
      invariant 0 <= i <= |data|
      invariant acc == Dedup(data[..i])
    {
      var curr := data[i];
      var found := Find(acc, curr);
      assert data[..i + 1][..i] == data[..i];
      if !found {
        acc := acc + [Suggestion(curr.customer_name, curr.customer_phone)];
      }
      i := i + 1;
    }
    assert data[..i] == data;
  }

  /** `queryFn`: no suggestions for a short term; otherwise the first ten matches, deduplicated. */
  method Suggestions(searchTerm: string, matches: seq<Suggestion>) returns (r: seq<Suggestion>)
    ensures !Enabled(searchTerm) ==> r == []
    ensures Enabled(searchTerm) ==> r == Dedup(matches[..if |matches| < Limit then |matches| else Limit])
    ensures |r| <= Limit && NoDuplicates(r)
    ensures forall x :: x in r ==> x in matches
  {
    if |searchTerm| < 2 {
      return [];
    }
    var n := if |matches| < Limit then |matches| else Limit;
    var data := matches[..n];
    r := Unique(data);
    DedupCorrect(data);
  }
}
