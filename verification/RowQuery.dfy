/** What `SELECT ... ORDER BY a, b, c LIMIT n` may answer, and a selection that answers it.
    Rows with equal keys may come back in any order, as SQL leaves it open. */
module RowQuery {

  type Id = string

  /** The three columns a row is ordered by, most significant first. */
  datatype Key = Key(major: real, minor: real, last: real)

  predicate KeyLeq(a: Key, b: Key) {
    a.major < b.major
    || (a.major == b.major && (a.minor < b.minor || (a.minor == b.minor && a.last <= b.last)))
  }

  predicate Sorted(keys: map<Id, Key>, rows: seq<Id>)
    requires forall r <- rows :: r in keys
  {
    forall i, j :: 0 <= i < j < |rows| ==> KeyLeq(keys[rows[i]], keys[rows[j]])
  }

  ghost predicate Distinct(rows: seq<Id>) {
    forall i, j :: 0 <= i < j < |rows| ==> rows[i] != rows[j]
  }

  function Members(rows: seq<Id>): set<Id> {
    set r <- rows
  }

  lemma MembersGrow(rows: seq<Id>, id: Id)
    ensures Members(rows + [id]) == Members(rows) + {id}
  {
  }

  /** `rows` is an answer to the query over the candidates `keys` with this limit. */
  ghost predicate FirstRows(keys: map<Id, Key>, limit: nat, rows: seq<Id>) {
    && (forall r <- rows :: r in keys)
    && Distinct(rows)
    && Sorted(keys, rows)
    && |rows| <= limit
    && (|rows| < limit ==> forall k <- keys :: k in rows)
    && (forall k <- keys, r <- rows :: k !in rows ==> KeyLeq(keys[r], keys[k]))
  }

  /** A least candidate of a non-empty set. */
  method Least(keys: map<Id, Key>, left: set<Id>) returns (best: Id)
    requires left != {} && left <= keys.Keys
    ensures best in left
    ensures forall k <- left :: KeyLeq(keys[best], keys[k])
  {
    best :| best in left;
    var todo := left - {best};
    while todo != {}
      invariant todo <= left && best in left
      invariant forall k <- left - todo :: KeyLeq(keys[best], keys[k])
      decreases todo
    {
      var k :| k in todo;
      if !KeyLeq(keys[best], keys[k]) {
        best := k;
      }
      todo := todo - {k};
    }
  }

  /** Answers the query by repeated selection. */
  method Select(keys: map<Id, Key>, limit: nat) returns (rows: seq<Id>)
    ensures FirstRows(keys, limit, rows)
  {
    rows := [];
    var left := keys.Keys;
    while left != {} && |rows| < limit
      invariant left <= keys.Keys
      invariant forall k <- keys :: k in left <==> k !in rows
      invariant forall r <- rows :: r in keys
      invariant |rows| <= limit
      invariant Distinct(rows)
      invariant Sorted(keys, rows)
      invariant forall k <- left, r <- rows :: KeyLeq(keys[r], keys[k])
      decreases left
    {
      var best := Least(keys, left);
      rows := rows + [best];
      left := left - {best};
    }
  }

  // ----- which answers there are

  lemma {:induction false} DistinctCard(rows: seq<Id>)
    requires Distinct(rows)
    ensures |Members(rows)| == |rows|
  {
    if rows != [] {
      var p := rows[..|rows| - 1];
      DistinctCard(p);
      assert Members(rows) == Members(p) + {rows[|rows| - 1]};
      assert rows[|rows| - 1] !in p;
    }
  }

  lemma SubsetCard<T>(a: set<T>, b: set<T>)
    requires a <= b
    ensures |a| <= |b|
    ensures |a| >= |b| ==> a == b
  {
    assert b == a + (b - a);
  }

  /** Everything fits: with no more candidates than the limit, the answer holds them all. */
  lemma AllRows(keys: map<Id, Key>, limit: nat, rows: seq<Id>)
    requires FirstRows(keys, limit, rows) && |keys| <= limit
    ensures forall k <- keys :: k in rows
  {
    if |rows| == limit {
      DistinctCard(rows);
      assert Members(rows) <= keys.Keys;
      SubsetCard(Members(rows), keys.Keys);
      assert forall k <- keys :: k in Members(rows);
    }
  }

  lemma {:induction false} LeastOf(keys: map<Id, Key>, left: set<Id>) returns (best: Id)
    requires left != {} && left <= keys.Keys
    ensures best in left
    ensures forall k <- left :: KeyLeq(keys[best], keys[k])
    decreases |left|
  {
    var x :| x in left;
    if left == {x} {
      best := x;
    } else {
      var y := LeastOf(keys, left - {x});
      best := if KeyLeq(keys[x], keys[y]) then x else y;
    }
  }

  /** Every query has an answer. */
  lemma {:induction false} AnAnswer(keys: map<Id, Key>, limit: nat) returns (rows: seq<Id>)
    ensures FirstRows(keys, limit, rows)
  {
    if limit == 0 || keys.Keys == {} {
      rows := [];
    } else {
      var best := LeastOf(keys, keys.Keys);
      var rest := AnAnswer(keys - {best}, limit - 1);
      rows := [best] + rest;
      LeastFirst(keys, limit, best, rest);
    }
  }

  /** Sorted rows followed by sorted rows that come after all of them. */
  lemma SortedConcat(keys: map<Id, Key>, a: seq<Id>, b: seq<Id>)
    requires (forall r <- a :: r in keys) && Distinct(a) && Sorted(keys, a)
    requires (forall r <- b :: r in keys) && Distinct(b) && Sorted(keys, b)
    requires forall x <- a, y <- b :: x != y && KeyLeq(keys[x], keys[y])
    ensures (forall r <- a + b :: r in keys) && Distinct(a + b) && Sorted(keys, a + b)
  {
    var rows := a + b;
    forall i, j | 0 <= i < j < |rows| ensures rows[i] != rows[j] && KeyLeq(keys[rows[i]], keys[rows[j]]) {
      if j < |a| {
        assert rows[i] == a[i] && rows[j] == a[j];
      } else if i >= |a| {
        assert rows[i] == b[i - |a|] && rows[j] == b[j - |a|];
      } else {
        assert rows[i] == a[i] && a[i] in a && rows[j] == b[j - |a|] && b[j - |a|] in b;
      }
    }
  }

  lemma LeastFirst(keys: map<Id, Key>, limit: nat, best: Id, rest: seq<Id>)
    requires limit > 0 && best in keys && forall k <- keys :: KeyLeq(keys[best], keys[k])
    requires FirstRows(keys - {best}, limit - 1, rest)
    ensures FirstRows(keys, limit, [best] + rest)
  {
    SortedConcat(keys, [best], rest);
    assert forall r <- [best] + rest :: r == best || r in rest;
  }

  /** The candidates that every answer puts before `c`. */
  function Before(keys: map<Id, Key>, c: Id): set<Id>
    requires c in keys
  {
    set u | u in keys && !KeyLeq(keys[c], keys[u])
  }

  function Only(keys: map<Id, Key>, chosen: set<Id>): (sub: map<Id, Key>)
    ensures sub.Keys == keys.Keys * chosen
    ensures forall k <- sub :: sub[k] == keys[k]
  {
    map k | k in keys && k in chosen :: keys[k]
  }

  lemma SortedAmong(keys: map<Id, Key>, chosen: set<Id>, rows: seq<Id>)
    requires (forall r <- rows :: r in Only(keys, chosen)) && Sorted(Only(keys, chosen), rows)
    ensures (forall r <- rows :: r in keys) && Sorted(keys, rows)
  {
    var sub := Only(keys, chosen);
    forall i | 0 <= i < |rows| ensures rows[i] in sub && sub[rows[i]] == keys[rows[i]] {
      assert rows[i] in rows;
    }
  }

  /** All of the candidates in front, then an answer from the others. */
  lemma Stitch(keys: map<Id, Key>, limit: nat, front: set<Id>, pre: seq<Id>, post: seq<Id>)
    requires front <= keys.Keys && |pre| <= limit
    requires forall u <- front, k <- keys :: k !in front ==> KeyLeq(keys[u], keys[k])
    requires FirstRows(Only(keys, front), |front|, pre) && (forall u <- front :: u in pre)
    requires FirstRows(Only(keys, keys.Keys - front), limit - |pre|, post)
    ensures FirstRows(keys, limit, pre + post)
  {
    SortedAmong(keys, front, pre);
    SortedAmong(keys, keys.Keys - front, post);
    SortedConcat(keys, pre, post);
    StitchRest(keys, limit, front, pre, post);
  }

  lemma StitchRest(keys: map<Id, Key>, limit: nat, front: set<Id>, pre: seq<Id>, post: seq<Id>)
    requires front <= keys.Keys && |pre| <= limit
    requires forall u <- front, k <- keys :: k !in front ==> KeyLeq(keys[u], keys[k])
    requires (forall u <- pre :: u in front) && (forall u <- front :: u in pre)
    requires FirstRows(Only(keys, keys.Keys - front), limit - |pre|, post)
    ensures forall k <- keys, r <- pre + post :: r in keys && (k !in pre + post ==> KeyLeq(keys[r], keys[k]))
    ensures |pre + post| < limit ==> forall k <- keys :: k in pre + post
  {
    var rest := Only(keys, keys.Keys - front);
    forall k, r | k in keys && r in pre + post ensures r in keys && (k !in pre + post ==> KeyLeq(keys[r], keys[k])) {
      assert r in pre || r in post;
      if k !in pre + post {
        assert k in rest && k !in post;
        if r in post {
          assert KeyLeq(rest[r], rest[k]);
        }
      }
    }
    if |pre + post| < limit {
      forall k | k in keys ensures k in pre + post {
        assert k in front || k in rest;
      }
    }
  }

  lemma FrontFits(keys: map<Id, Key>, front: set<Id>) returns (pre: seq<Id>)
    requires front <= keys.Keys
    ensures FirstRows(Only(keys, front), |front|, pre) && |pre| == |front|
    ensures forall u <- front :: u in pre
  {
    var sub := Only(keys, front);
    assert sub.Keys == front;
    pre := AnAnswer(sub, |front|);
    AllRows(sub, |front|, pre);
    DistinctCard(pre);
    SubsetCard(front, Members(pre));
  }

  /** A candidate with fewer than `limit` others strictly before it is in some answer. */
  lemma AnswerWith(keys: map<Id, Key>, limit: nat, c: Id) returns (rows: seq<Id>)
    requires c in keys && |Before(keys, c)| < limit
    ensures FirstRows(keys, limit, rows) && c in rows
  {
    var front := Before(keys, c);
    var pre := FrontFits(keys, front);
    var rest := Only(keys, keys.Keys - front);
    var left := limit - |front|;
    var post := AnAnswer(rest - {c}, left - 1);
    LeastFirst(rest, left, c, post);
    rows := pre + ([c] + post);
    Stitch(keys, limit, front, pre, [c] + post);
  }

  /** Enough chosen candidates, none of them strictly after one that is not chosen: some answer holds
      only chosen ones. */
  lemma AnswerWithin(keys: map<Id, Key>, limit: nat, chosen: set<Id>, front: set<Id>) returns (rows: seq<Id>)
    requires front <= chosen <= keys.Keys && |front| >= limit
    requires forall u <- front, k <- keys :: k !in chosen ==> KeyLeq(keys[u], keys[k])
    ensures FirstRows(keys, limit, rows) && |rows| == limit && forall r <- rows :: r in chosen
  {
    var sub := map u | u in chosen :: keys[u];
    rows := AnAnswer(sub, limit);
    Filled(sub, limit, rows, front);
    forall k, r | k in keys && r in rows && k !in rows ensures KeyLeq(keys[r], keys[k]) {
      if k !in chosen {
        FrontBehind(sub, limit, rows, front, r, keys[k]);
      }
    }
  }

  lemma Filled(keys: map<Id, Key>, limit: nat, rows: seq<Id>, front: set<Id>)
    requires FirstRows(keys, limit, rows) && front <= keys.Keys && |front| >= limit
    ensures |rows| == limit
  {
    if |rows| < limit {
      DistinctCard(rows);
      SubsetCard(front, Members(rows));
    }
  }

  /** A row of the answer is at or before whatever the whole front is at or before. */
  lemma FrontBehind(keys: map<Id, Key>, limit: nat, rows: seq<Id>, front: set<Id>, r: Id, x: Key)
    requires FirstRows(keys, limit, rows) && front <= keys.Keys && |front| >= limit && r in rows
    requires forall u <- front :: KeyLeq(keys[u], x)
    ensures KeyLeq(keys[r], x)
  {
    if r !in front {
      DistinctCard(rows);
      if front <= Members(rows) {
        SubsetCard(front, Members(rows) - {r});
        assert false;
      }
      var u :| u in front && u !in Members(rows);
      assert KeyLeq(keys[r], keys[u]) && KeyLeq(keys[u], x);
    }
  }
}
