/** Tasks in the order of storage.py `list_tasks`: by creation time, then by identifier. */
module TaskOrder {
  import opened Collections
  import opened Wrappers

  /** A task is identified by its creation time and its unique identifier, both immutable. */
  datatype Id = Id(created: nat, name: nat)

  predicate Before(a: Id, b: Id) {
    a.created < b.created || (a.created == b.created && a.name < b.name)
  }

  ghost predicate Ascending(ids: seq<Id>) {
    forall i, j :: 0 <= i < j < |ids| ==> Before(ids[i], ids[j])
  }

  ghost function Elements(ids: seq<Id>): set<Id> {
    set i | 0 <= i < |ids| :: ids[i]
  }

  ghost predicate IsLeast(m: Id, s: set<Id>) {
    m in s && forall x :: x in s && x != m ==> Before(m, x)
  }

  lemma LeastExists(s: set<Id>)
    requires s != {}
    ensures exists m :: IsLeast(m, s)
  {
    var x :| x in s;
    var rest := s - {x};
    if rest == {} {
      assert s == {x};
      assert IsLeast(x, s);
    } else {
      LeastExists(rest);
      var m :| IsLeast(m, rest);
      var least := if Before(x, m) then x else m;
      assert s == rest + {x};
      assert IsLeast(least, s);
    }
  }

  /** The elements of `s` in ascending order. */
  ghost function Sorted(s: set<Id>): (ids: seq<Id>)
    ensures Ascending(ids) && Elements(ids) == s && |ids| == |s|
  {
    if s == {} then [] else
    LeastExists(s);
    var m :| IsLeast(m, s);
    var rest := Sorted(s - {m});
    SortedCons(m, s, rest);
    [m] + rest
  }

  lemma SortedCons(m: Id, s: set<Id>, rest: seq<Id>)
    requires IsLeast(m, s) && Ascending(rest) && Elements(rest) == s - {m}
    ensures Ascending([m] + rest) && Elements([m] + rest) == s
  {
    var all := [m] + rest;
    forall i | 0 <= i < |rest| ensures rest[i] in s && rest[i] != m {
      assert rest[i] in Elements(rest);
    }
    forall x | x in s ensures x in Elements(all) {
      if x == m {
        assert all[0] == m;
      } else {
        assert x in Elements(rest);
        var i :| 0 <= i < |rest| && rest[i] == x;
        assert all[i + 1] == x;
      }
    }
    forall x | x in Elements(all) ensures x in s {
      var i :| 0 <= i < |all| && all[i] == x;
      if i > 0 {
        assert all[i] == rest[i - 1];
      }
    }
  }

  /** An ascending sequence is determined by its elements. */
  lemma {:induction false} AscendingUnique(a: seq<Id>, b: seq<Id>)
    requires Ascending(a) && Ascending(b) && Elements(a) == Elements(b)
    ensures a == b
    decreases |a|
  {
    assert b != [] ==> b[0] in Elements(b);
    if a != [] {
      assert a[0] in Elements(a);
      assert b != [];
      assert b[0] in Elements(a);
      assert a[0] == b[0];
      TailElements(a);
      TailElements(b);
      AscendingUnique(a[1..], b[1..]);
      assert a == [a[0]] + a[1..] && b == [b[0]] + b[1..];
    }
  }

  lemma TailElements(a: seq<Id>)
    requires Ascending(a) && a != []
    ensures Elements(a[1..]) == Elements(a) - {a[0]} && Ascending(a[1..])
  {
    forall x | x in Elements(a) - {a[0]} ensures x in Elements(a[1..]) {
      var i :| 0 <= i < |a| && a[i] == x;
      assert a[1..][i - 1] == x;
    }
    forall x | x in Elements(a[1..]) ensures x in Elements(a) - {a[0]} {
      var i :| 0 <= i < |a[1..]| && a[1..][i] == x;
      assert a[i + 1] == x && Before(a[0], a[i + 1]);
    }
  }

  /** The members of `s` behind a cursor. */
  ghost function After(s: set<Id>, cursor: Option<Id>): set<Id> {
    set x | x in s && (cursor.None? || Before(cursor.value, x))
  }

  /** Behind the `n`-th element lie exactly the later ones. */
  lemma RestIsAfter(s: set<Id>, n: nat)
    requires 0 < n <= |s|
    ensures Sorted(After(s, Some(Sorted(s)[n - 1]))) == Sorted(s)[n..]
  {
    var all := Sorted(s);
    var cut := After(s, Some(all[n - 1]));
    var rest := all[n..];
    TailMembers(all, n);
    assert Elements(rest) == cut by {
      forall x ensures x in cut <==> x in Elements(rest) {
      }
    }
    AscendingUnique(Sorted(cut), rest);
  }

  lemma TailMembers(all: seq<Id>, n: nat)
    requires Ascending(all) && 0 < n <= |all|
    ensures Ascending(all[n..])
    ensures forall x :: x in Elements(all[n..]) <==> x in Elements(all) && Before(all[n - 1], x)
  {
    var rest := all[n..];
    assert forall j :: 0 <= j < n ==> !Before(all[n - 1], all[j]);
    forall x | x in Elements(all) && Before(all[n - 1], x) ensures x in Elements(rest) {
      var i :| 0 <= i < |all| && all[i] == x;
      assert rest[i - n] == x;
    }
    forall x | x in Elements(rest) ensures x in Elements(all) && Before(all[n - 1], x) {
      var i :| 0 <= i < |rest| && rest[i] == x;
      assert all[n + i] == x;
    }
  }

  /** One page of `list_tasks`: at most `limit` members of `s` behind the cursor, in order. */
  ghost function Page(s: set<Id>, limit: nat, cursor: Option<Id>): seq<Id> {
    Take(Sorted(After(s, cursor)), limit)
  }
}
