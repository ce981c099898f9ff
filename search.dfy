/**
 * The search filters of the assignment and candidate lists (the same expressions appear in
 * src/components/Dashboard/Dashboard.js, src/components/Assignment/AssignmentList.js and
 * src/components/Candidate/CandidateList.js): a blank term shows everything; otherwise the
 * lower-cased term, untrimmed, must occur in one of the lower-cased fields.
 */
module Search {
  import opened Text
  import opened ReportGenerator

  /** `a` is `b` with some elements dropped, the rest in order. */
  predicate Subsequence<T(==)>(a: seq<T>, b: seq<T>)
    decreases |b|
  {
    if a == [] then true
    else if b == [] then false
    else (a[0] == b[0] && Subsequence(a[1..], b[1..])) || Subsequence(a, b[1..])
  }

  /** `Array.prototype.filter` */
  function Filter<T(==,!new)>(s: seq<T>, keep: T -> bool): (r: seq<T>)
    ensures forall x :: x in r <==> x in s && keep(x)
    ensures forall x :: multiset(r)[x] == if keep(x) then multiset(s)[x] else 0
    ensures Subsequence(r, s)
    ensures |r| <= |s|
  {
    if s == [] then []
    else
      var rest := Filter(s[1..], keep);
      assert s == [s[0]] + s[1..];
      if keep(s[0]) then
        assert ([s[0]] + rest)[1..] == rest;
        [s[0]] + rest
      else rest
  }

  /** The assignment predicate: name or client name contains the term, both lower-cased. */
  predicate AssignmentMatches(a: Assignment, term: string)
  {
    Contains(ToLower(a.name), ToLower(term)) || Contains(ToLower(a.client.name), ToLower(term))
  }

  /**
   * The assignment filter: a blank term keeps the list; otherwise exactly the matching
   * assignments stay, each as often as in the list, in their order.
   */
  function FilterAssignments(assignments: seq<Assignment>, term: string): (r: seq<Assignment>)
    ensures IsBlank(term) ==> r == assignments
    ensures !IsBlank(term) ==> forall a :: a in r <==> a in assignments && AssignmentMatches(a, term)
    ensures !IsBlank(term) ==> forall a :: multiset(r)[a] == if AssignmentMatches(a, term) then multiset(assignments)[a] else 0
    ensures Subsequence(r, assignments)
  {
    if IsBlank(term) then
      SubsequenceRefl(assignments);
      assignments
    else Filter(assignments, a => AssignmentMatches(a, term))
  }

  /**
   * The candidate predicate: the name, the first position's title or the first position's
   * company name contains the term, all lower-cased. A candidate without positions can only
   * match by name.
   */
  predicate CandidateMatches(c: Candidate, term: string)
  {
    var t := ToLower(term);
    Contains(ToLower(c.name), t)
    || (|c.positions| > 0 && Contains(ToLower(c.positions[0].title), t))
    || (|c.positions| > 0 && Contains(ToLower(c.positions[0].companyName), t))
  }

  function FilterCandidates(candidates: seq<Candidate>, term: string): (r: seq<Candidate>)
    ensures IsBlank(term) ==> r == candidates
    ensures !IsBlank(term) ==> forall c :: c in r <==> c in candidates && CandidateMatches(c, term)
    ensures !IsBlank(term) ==> forall c :: multiset(r)[c] == if CandidateMatches(c, term) then multiset(candidates)[c] else 0
    ensures Subsequence(r, candidates)
  {
    if IsBlank(term) then
      SubsequenceRefl(candidates);
      candidates
    else Filter(candidates, c => CandidateMatches(c, term))
  }

  lemma {:induction false} SubsequenceRefl<T>(s: seq<T>)
    ensures Subsequence(s, s)
  {
    if s != [] {
      SubsequenceRefl(s[1..]);
    }
  }

  /** A subsequence of a subsequence is a subsequence: filtering a filtered list stays inside the original. */
  lemma {:induction false} SubsequenceTransitive<T>(a: seq<T>, b: seq<T>, c: seq<T>)
    requires Subsequence(a, b) && Subsequence(b, c)
    ensures Subsequence(a, c)
    decreases |c|
  {
    if a != [] {
      assert b != [] && c != [];
      if b[0] == c[0] && Subsequence(b[1..], c[1..]) {
        if a[0] == b[0] && Subsequence(a[1..], b[1..]) {
          SubsequenceTransitive(a[1..], b[1..], c[1..]);
        } else {
          SubsequenceTransitive(a, b[1..], c[1..]);
        }
      } else {
        SubsequenceTransitive(a, b, c[1..]);
      }
    }
  }

  /** Narrowing the search: every assignment the longer term finds, the shorter one it extends finds too. */
  lemma NarrowingTerm(assignments: seq<Assignment>, term: string, more: string)
    requires !IsBlank(term)
    ensures forall a :: a in FilterAssignments(assignments, term + more) ==> a in FilterAssignments(assignments, term)
  {
    assert !IsBlank(term + more) by {
      var k :| 0 <= k < |term| && !IsSpace(term[k]);
      assert (term + more)[k] == term[k];
    }
    forall a | a in FilterAssignments(assignments, term + more) ensures a in FilterAssignments(assignments, term) {
      LongerTermMatches(a, term, more);
    }
  }

  /** An assignment matching `term + more` matches `term`. */
  lemma LongerTermMatches(a: Assignment, term: string, more: string)
    requires AssignmentMatches(a, term + more)
    ensures AssignmentMatches(a, term)
  {
    ToLowerAppend(term, more);
    if Contains(ToLower(a.name), ToLower(term) + ToLower(more)) {
      ContainsPrefix(ToLower(a.name), ToLower(term), ToLower(more));
    } else {
      ContainsPrefix(ToLower(a.client.name), ToLower(term), ToLower(more));
    }
  }

  /** Text containing `p + q` contains `p`. */
  lemma ContainsPrefix(s: string, p: string, q: string)
    requires Contains(s, p + q)
    ensures Contains(s, p)
  {
    var i :| 0 <= i <= |s| - |p + q| && OccursAt(s, p + q, i);
    assert s[i..i + |p|] == (p + q)[..|p|] == p;
    assert OccursAt(s, p, i);
  }

  /** The term is matched as typed: a leading space stops "x" from matching the name "x". */
  lemma TermNotTrimmed(a: Assignment)
    requires a.name == "x" && a.client.name == "y"
    ensures FilterAssignments([a], "x") == [a]
    ensures FilterAssignments([a], " x") == []
  {
    assert ToLower("x") == "x" by { assert ToLower("x")[0] == LowerChar('x') == 'x'; }
    assert ToLower("y") == "y" by { assert ToLower("y")[0] == LowerChar('y') == 'y'; }
    assert !IsBlank("x") by { assert !IsSpace("x"[0]); }
    assert !IsBlank(" x") by { assert !IsSpace(" x"[1]); }
    assert OccursAt("x", "x", 0);
    assert AssignmentMatches(a, "x");
    assert |ToLower(" x")| == 2;
    assert !AssignmentMatches(a, " x");
  }
}
