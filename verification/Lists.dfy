/** Lists: their members, and insertion into and removal from them. */
module Lists {

  type Id = nat

  ghost function Members<T(!new)>(s: seq<T>): (r: set<T>)
    ensures forall x :: x in r <==> x in s
  {
    set x | x in s
  }

  ghost predicate Distinct<T>(s: seq<T>) {
    forall i, j | 0 <= i < j < |s| :: s[i] != s[j]
  }

  ghost predicate Differ<T>(s: seq<T>, i: int, j: int) {
    0 <= i < |s| && 0 <= j < |s| && s[i] != s[j]
  }

  /** `Distinct`, in a form that says something only about the pairs a proof asks for. */
  ghost predicate NoDuplicates<T>(s: seq<T>) {
    forall i, j {:trigger Differ(s, i, j)} | 0 <= i < j < |s| :: Differ(s, i, j)
  }

  lemma ToDistinct<T>(s: seq<T>)
    requires NoDuplicates(s)
    ensures Distinct(s)
  {
    forall i, j | 0 <= i < j < |s| ensures s[i] != s[j] {
      assert Differ(s, i, j);
    }
  }

  lemma FromDistinct<T>(s: seq<T>)
    requires Distinct(s)
    ensures NoDuplicates(s)
  {
  }

  function Last<T>(s: seq<T>): T
    requires s != []
  {
    s[|s| - 1]
  }

  function InsertAt<T>(s: seq<T>, k: nat, x: T): seq<T>
    requires k <= |s|
  {
    s[..k] + [x] + s[k..]
  }

  function RemoveAt<T>(s: seq<T>, k: nat): seq<T>
    requires k < |s|
  {
    s[..k] + s[k + 1..]
  }

  lemma Replaced<T>(s: seq<T>, k: nat, x: T)
    requires k < |s|
    ensures InsertAt(RemoveAt(s, k), k, x) == s[k := x]
  {}

  lemma RemoveElem<T(!new)>(s: seq<T>, k: nat)
    requires NoDuplicates(s) && k < |s|
    ensures Members(RemoveAt(s, k)) == Members(s) - {s[k]} && NoDuplicates(RemoveAt(s, k))
  {
    ToDistinct(s);
    var t := RemoveAt(s, k);
    forall x | x in s && x != s[k] ensures x in t {
      var i :| 0 <= i < |s| && s[i] == x;
      assert t[if i < k then i else i - 1] == x;
    }
  }

  lemma MembersInsert<T(!new)>(s: seq<T>, k: nat, x: T)
    requires k <= |s|
    ensures Members(InsertAt(s, k, x)) == Members(s) + {x}
  {
    var t := InsertAt(s, k, x);
    forall y | y in s ensures y in t {
      var j :| 0 <= j < |s| && s[j] == y;
      assert t[if j < k then j else j + 1] == y;
    }
    assert t[k] == x;
  }

  /** `s` without the first occurrence of `x`. */
  function Without<T(==)>(s: seq<T>, x: T): seq<T> {
    if s == [] then [] else if s[0] == x then s[1..] else [s[0]] + Without(s[1..], x)
  }

  lemma {:induction false} WithoutAt<T>(s: seq<T>, k: nat)
    requires NoDuplicates(s) && k < |s|
    ensures Without(s, s[k]) == RemoveAt(s, k)
  {
    if k > 0 {
      assert Differ(s, 0, k);
      forall i, j | 0 <= i < j < |s[1..]| ensures Differ(s[1..], i, j) {
        assert Differ(s, i + 1, j + 1);
      }
      WithoutAt(s[1..], k - 1);
      assert RemoveAt(s, k) == [s[0]] + RemoveAt(s[1..], k - 1);
    }
  }

  lemma {:induction false} WithoutNone<T>(s: seq<T>, x: T)
    requires x !in s
    ensures Without(s, x) == s
  {
    if s != [] {
      WithoutNone(s[1..], x);
    }
  }

  lemma WithoutMembers<T(!new)>(s: seq<T>, x: T)
    requires NoDuplicates(s)
    ensures NoDuplicates(Without(s, x)) && Members(Without(s, x)) == Members(s) - {x}
  {
    if x in s {
      var k :| 0 <= k < |s| && s[k] == x;
      WithoutAt(s, k);
      RemoveElem(s, k);
    } else {
      WithoutNone(s, x);
    }
  }

  lemma AppendMember<T(!new)>(s: seq<T>, x: T)
    requires NoDuplicates(s) && x !in s
    ensures NoDuplicates(s + [x]) && Members(s + [x]) == Members(s) + {x}
  {
    ToDistinct(s);
    FromDistinct(s + [x]);
  }

  lemma MembersTail<T(!new)>(s: seq<T>)
    requires s != []
    ensures Members(s) == {s[0]} + Members(s[1..]) && s == [s[0]] + s[1..]
  {
    assert s == [s[0]] + s[1..];
  }

  lemma NoDuplicatesTail<T>(s: seq<T>)
    requires s != []
    ensures NoDuplicates(s) <==> s[0] !in s[1..] && NoDuplicates(s[1..])
  {
    if NoDuplicates(s) {
      ToDistinct(s);
      FromDistinct(s[1..]);
    }
    if s[0] !in s[1..] && NoDuplicates(s[1..]) {
      ToDistinct(s[1..]);
      forall i, j | 0 <= i < j < |s| ensures s[i] != s[j] {
        assert s[j] == s[1..][j - 1] && (i > 0 ==> s[i] == s[1..][i - 1]);
      }
      FromDistinct(s);
    }
  }
}
