/** Sorting entries by key in code-unit order, as a default array sort does. */
module KeyOrder {
  import opened JsonText

  datatype Entry = Entry(key: Text, text: Text)

  predicate Less(a: Text, b: Text) {
    b != [] && (a == [] || a[0] < b[0] || (a[0] == b[0] && Less(a[1..], b[1..])))
  }

  lemma {:induction false} LessIsTotal(a: Text, b: Text)
    ensures Less(a, b) || a == b || Less(b, a)
    ensures !(Less(a, b) && Less(b, a)) && !Less(a, a)
    decreases |a| + |b|
  {
    if a != [] && b != [] {
      LessIsTotal(a[1..], b[1..]);
      assert a == [a[0]] + a[1..] && b == [b[0]] + b[1..];
    }
    if a != [] {
      LessIsIrreflexive(a);
    }
  }

  lemma {:induction false} LessIsIrreflexive(a: Text)
    ensures !Less(a, a)
  {
    if a != [] {
      LessIsIrreflexive(a[1..]);
    }
  }

  lemma {:induction false} LessIsTransitive(a: Text, b: Text, c: Text)
    requires Less(a, b) && Less(b, c)
    ensures Less(a, c)
  {
    if a != [] && a[0] == b[0] && b[0] == c[0] {
      LessIsTransitive(a[1..], b[1..], c[1..]);
    }
  }

  function Insert(e: Entry, s: seq<Entry>): seq<Entry> {
    if s == [] then [e]
    else if Less(e.key, s[0].key) then [e] + s
    else [s[0]] + Insert(e, s[1..])
  }

  function Sort(s: seq<Entry>): seq<Entry> {
    if s == [] then [] else Insert(s[0], Sort(s[1..]))
  }

  predicate Ascending(s: seq<Entry>) {
    |s| >= 2 ==> Less(s[0].key, s[1].key) && Ascending(s[1..])
  }

  predicate KeysDistinct(s: seq<Entry>) {
    forall i, j :: 0 <= i < j < |s| ==> s[i].key != s[j].key
  }

  lemma {:induction false} InsertMembers(e: Entry, s: seq<Entry>, x: Entry)
    ensures x in Insert(e, s) <==> x == e || x in s
  {
    if s != [] && !Less(e.key, s[0].key) {
      InsertMembers(e, s[1..], x);
      assert s == [s[0]] + s[1..];
    }
  }

  lemma {:induction false} SortMembers(s: seq<Entry>, x: Entry)
    ensures x in Sort(s) <==> x in s
  {
    if s != [] {
      SortMembers(s[1..], x);
      InsertMembers(s[0], Sort(s[1..]), x);
      assert s == [s[0]] + s[1..];
    }
  }

  lemma {:induction false} InsertAscends(e: Entry, s: seq<Entry>)
    requires Ascending(s) && forall i :: 0 <= i < |s| ==> s[i].key != e.key
    ensures Ascending(Insert(e, s))
    ensures s != [] ==> Insert(e, s)[0] == e || Insert(e, s)[0] == s[0]
  {
    if s != [] && !Less(e.key, s[0].key) {
      LessIsTotal(e.key, s[0].key);
      InsertAscends(e, s[1..]);
      var rest := Insert(e, s[1..]);
      assert ([s[0]] + rest)[1..] == rest;
    } else if s != [] {
      assert ([e] + s)[1..] == s;
    }
  }

  lemma {:induction false} SortAscends(s: seq<Entry>)
    requires KeysDistinct(s)
    ensures Ascending(Sort(s))
  {
    if s != [] {
      SortAscends(s[1..]);
      forall i | 0 <= i < |Sort(s[1..])| ensures Sort(s[1..])[i].key != s[0].key {
        SortMembers(s[1..], Sort(s[1..])[i]);
      }
      InsertAscends(s[0], Sort(s[1..]));
    }
  }

  lemma {:induction false} HeadIsLeast(s: seq<Entry>, x: Entry)
    requires Ascending(s) && s != [] && x in s[1..]
    ensures Less(s[0].key, x.key)
  {
    if x != s[1] {
      assert s[1..] == [s[1]] + s[1..][1..];
      HeadIsLeast(s[1..], x);
      LessIsTransitive(s[0].key, s[1].key, x.key);
    }
  }

  lemma HeadsAgree(s: seq<Entry>, t: seq<Entry>)
    requires Ascending(s) && Ascending(t) && s != [] && t != []
    requires s[0] in t && t[0] in s
    ensures s[0] == t[0]
  {
    if s[0] != t[0] {
      assert s == [s[0]] + s[1..] && t == [t[0]] + t[1..];
      HeadIsLeast(s, t[0]);
      HeadIsLeast(t, s[0]);
      LessIsTotal(s[0].key, t[0].key);
    }
  }

  /** There is only one ascending list of given entries. */
  lemma {:induction false} AscendingIsUnique(s: seq<Entry>, t: seq<Entry>)
    requires Ascending(s) && Ascending(t) && forall x :: x in s <==> x in t
    ensures s == t
  {
    assert s != [] ==> s[0] in t;
    assert t != [] ==> t[0] in s;
    if s != [] && t != [] {
      HeadsAgree(s, t);
      forall x ensures x in s[1..] <==> x in t[1..] {
        TailMembers(s, x);
        TailMembers(t, x);
      }
      AscendingIsUnique(s[1..], t[1..]);
      assert s == [s[0]] + s[1..] && t == [t[0]] + t[1..];
    }
  }

  lemma TailMembers(s: seq<Entry>, x: Entry)
    requires Ascending(s) && s != []
    ensures x in s[1..] <==> x in s && x != s[0]
  {
    assert s == [s[0]] + s[1..];
    if s[0] in s[1..] {
      HeadIsLeast(s, s[0]);
      LessIsIrreflexive(s[0].key);
    }
  }

  /** Sorting forgets the order in which the keys were given. */
  lemma SortForgetsOrder(s: seq<Entry>, t: seq<Entry>)
    requires KeysDistinct(s) && KeysDistinct(t) && forall x :: x in s <==> x in t
    ensures Sort(s) == Sort(t)
  {
    SortAscends(s);
    SortAscends(t);
    forall x ensures x in Sort(s) <==> x in Sort(t) {
      SortMembers(s, x);
      SortMembers(t, x);
    }
    AscendingIsUnique(Sort(s), Sort(t));
  }
}
