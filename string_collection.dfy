/** `StringCollection`: a container of unique strings whose member set is mutated in place. */
module StringCollections {

  /** The distinct elements of a sequence. */
  function Elements(s: seq<string>): set<string>
  {
    set x | x in s
  }

  /** No element occurs twice. */
  predicate Distinct(s: seq<string>)
  {
    forall i, j :: 0 <= i < j < |s| ==> s[i] != s[j]
  }

  /** A sequence has at least as many entries as distinct elements, and exactly as many
      when no element repeats: this is why `Len` collapses duplicates. */
  lemma {:induction false} ElementsCardinality(s: seq<string>)
    ensures |Elements(s)| <= |s|
    ensures |Elements(s)| == |s| <==> Distinct(s)
  {
    if s != [] {
      var t := s[1..];
      ElementsCardinality(t);
      assert Elements(s) == {s[0]} + Elements(t);
      if s[0] in t {
        assert Elements(s) == Elements(t);
        var k :| 0 <= k < |t| && t[k] == s[0];
        assert s[0] == s[k + 1];
        assert !Distinct(s);
      } else {
        assert |Elements(s)| == |Elements(t)| + 1;
        if Distinct(t) {
          forall i, j | 0 <= i < j < |s| ensures s[i] != s[j] {
            if i > 0 { assert s[i] == t[i - 1] && s[j] == t[j - 1]; }
            else { assert s[j] == t[j - 1]; }
          }
        } else {
          var i, j :| 0 <= i < j < |t| && t[i] == t[j];
          assert s[i + 1] == s[j + 1];
        }
      }
    }
  }

  class StringCollection {
    /** The members (the keys of the underlying Go map). */
    var m: set<string>

    /** `NewStringCollection(members...)`: a collection holding exactly the distinct members. */
    constructor (members: seq<string>)
      ensures m == Elements(members)
    {
      m := {};
      new;
      Add(members);
    }

    /** `Add(members...)`: every given string becomes a member; existing members stay. */
    method Add(members: seq<string>)
      modifies this
      ensures m == old(m) + Elements(members)
    {
      var i := 0;
      while i < |members|
        invariant 0 <= i <= |members|
        invariant m == old(m) + Elements(members[..i])
      {
        assert members[..i + 1] == members[..i] + [members[i]];
        m := m + {members[i]};
        i := i + 1;
      }
      assert members[..i] == members;
    }

    /** `Remove(members...)`: no given string is a member afterwards; other members stay. */
    method Remove(members: seq<string>)
      modifies this
      ensures m == old(m) - Elements(members)
    {
      var i := 0;
      while i < |members|
        invariant 0 <= i <= |members|
        invariant m == old(m) - Elements(members[..i])
      {
        assert members[..i + 1] == members[..i] + [members[i]];
        m := m - {members[i]};
        i := i + 1;
      }
      assert members[..i] == members;
    }

    /** `Contains(s)`: membership test. */
    method Contains(s: string) returns (exists_: bool)
      ensures exists_ <==> s in m
    {
      exists_ := s in m;
    }

    /** `Slice()`: a snapshot listing every member exactly once, in unspecified order. */
    method Slice() returns (s: seq<string>)
      ensures Elements(s) == m
      ensures Distinct(s)
      ensures |s| == |m|
    {
      var a := new string[|m|];
      var rest := m;
      var i := 0;
      while rest != {}
        invariant rest <= m
        invariant i + |rest| == |m|
        invariant Elements(a[..i]) == m - rest
        invariant Distinct(a[..i])
        decreases |rest|
      {
        var mem :| mem in rest;
        assert mem !in Elements(a[..i]);
        a[i] := mem;
        assert a[..i + 1] == a[..i] + [mem];
        assert Elements(a[..i + 1]) == Elements(a[..i]) + {mem};
        rest := rest - {mem};
        i := i + 1;
      }
      s := a[..];
      assert a[..] == a[..i];
    }

    /** `Len()`: the number of distinct members. */
    method Len() returns (n: nat)
      ensures n == |m|
    {
      n := |m|;
    }
  }

  /** `NewStringCollection(members...).Len()`: duplicates in the constructor input are counted
      once, so the length never exceeds the input's and equals it iff the input has no repeats. */
  method NewCollectionLen(members: seq<string>) returns (n: nat)
    ensures n == |Elements(members)|
    ensures n <= |members|
    ensures n == |members| <==> Distinct(members)
  {
    var sc := new StringCollection(members);
    n := sc.Len();
    ElementsCardinality(members);
  }
}
