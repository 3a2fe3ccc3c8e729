/** The loop of client/src/auth/Register.tsx and client/src/auth/Login.tsx that
    turns the issue list into the per-field error object: issues are visited in
    order, an issue with a path stores its message under the first path
    element, and an issue without a path is skipped. */
module FormErrors {
  import opened UserSchema

  type ErrorMap = map<Field, string>

  /** The key an issue is stored under, if any. */
  predicate Keyed(issue: Issue, k: Field) {
    |issue.path| > 0 && issue.path[0] == k
  }

  /** Some issue is stored under `k`. */
  predicate Mentions(issues: seq<Issue>, k: Field) {
    exists i :: 0 <= i < |issues| && Keyed(issues[i], k)
  }

  /** One visit of the loop. */
  function Visit(m: ErrorMap, issue: Issue): ErrorMap {
    if |issue.path| > 0 then m[issue.path[0] := issue.message] else m
  }

  /** The error object after visiting every issue: its keys are exactly the
      first path elements that occur. */
  function Collect(issues: seq<Issue>): (m: ErrorMap)
    ensures forall k :: k in m <==> Mentions(issues, k)
    decreases |issues|
  {
    if |issues| == 0 then map[]
    else
      var prefix := issues[..|issues| - 1];
      var last := issues[|issues| - 1];
      var m := Visit(Collect(prefix), last);
      assert forall k :: Mentions(issues, k) <==> Mentions(prefix, k) || Keyed(last, k) by {
        forall k ensures Mentions(issues, k) <==> Mentions(prefix, k) || Keyed(last, k) {
          if Mentions(prefix, k) {
            var i :| 0 <= i < |prefix| && Keyed(prefix[i], k);
            assert issues[i] == prefix[i];
          }
          if Mentions(issues, k) && !Keyed(last, k) {
            var i :| 0 <= i < |issues| && Keyed(issues[i], k);
            assert i < |prefix| && prefix[i] == issues[i];
          }
        }
      }
      m
  }

  /** The last issue stored under a key decides its message. */
  lemma {:induction false} LastIssueWins(issues: seq<Issue>, i: int)
    requires 0 <= i < |issues| && |issues[i].path| > 0
    requires forall j :: i < j < |issues| ==> !Keyed(issues[j], issues[i].path[0])
    ensures issues[i].path[0] in Collect(issues)
    ensures Collect(issues)[issues[i].path[0]] == issues[i].message
    decreases |issues|
  {
    var prefix := issues[..|issues| - 1];
    if i < |issues| - 1 {
      assert prefix[i] == issues[i];
      forall j | i < j < |prefix|
        ensures !Keyed(prefix[j], prefix[i].path[0])
      {
        assert prefix[j] == issues[j];
      }
      LastIssueWins(prefix, i);
    }
  }

  /** Visiting one more issue. */
  lemma CollectSnoc(p: seq<Issue>, x: Issue)
    ensures Collect(p + [x]) == Visit(Collect(p), x)
  {
    var s := p + [x];
    assert s[..|s| - 1] == p && s[|s| - 1] == x;
  }

  /** Visiting the issue a rule reports when it is broken. */
  lemma CollectWhen(p: seq<Issue>, broken: bool, field: Field, message: string)
    ensures Collect(p + When(broken, field, message))
      == if broken then Collect(p)[field := message] else Collect(p)
  {
    if broken {
      CollectSnoc(p, Issue([field], message));
    } else {
      assert p + When(broken, field, message) == p;
    }
  }

  /** Issues without a path leave no trace: dropping them changes nothing. */
  lemma {:induction false} PathlessIgnored(a: seq<Issue>, b: seq<Issue>)
    requires forall i :: 0 <= i < |b| ==> |b[i].path| == 0
    ensures Collect(a + b) == Collect(a)
    decreases |b|
  {
    if |b| > 0 {
      var front, last := b[..|b| - 1], b[|b| - 1];
      assert a + b == (a + front) + [last];
      CollectSnoc(a + front, last);
      PathlessIgnored(a, front);
    } else {
      assert a + b == a;
    }
  }

  /** No issues, no errors: the map is empty exactly when no issue has a
      path. */
  lemma EmptyIffNoKeyedIssue(issues: seq<Issue>)
    ensures Collect(issues) == map[] <==> forall i :: 0 <= i < |issues| ==> |issues[i].path| == 0
  {
    if Collect(issues) == map[] {
      forall i | 0 <= i < |issues|
        ensures |issues[i].path| == 0
      {
        if |issues[i].path| > 0 {
          assert Mentions(issues, issues[i].path[0]);
        }
      }
    } else {
      var k :| k in Collect(issues);
      var i :| 0 <= i < |issues| && Keyed(issues[i], k);
    }
  }
}
