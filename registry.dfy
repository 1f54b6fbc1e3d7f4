/** Lists of records keyed by `name`: the shape of every preset and workflow
    collection in the three panels (`this.apiPresets`, `this.loraPresets`,
    `this.workflows`, `this.naiPresets`), and of the IndexedDB object stores
    that hold LoRA presets and workflows. */
module Registry {
  import opened Common

  /** A record with its `name` key and the rest of its fields. */
  datatype Named<+B> = Named(name: string, body: B)

  /** `list.some(p => p.name === n)`. */
  predicate HasName<B>(s: seq<Named<B>>, n: string)
  {
    exists i :: 0 <= i < |s| && s[i].name == n
  }

  /** No name occurs twice in the list. */
  predicate NamesUnique<B>(s: seq<Named<B>>)
  {
    forall i, j :: 0 <= i < j < |s| ==> s[i].name != s[j].name
  }

  /** `list.findIndex(p => p.name === n)`, with `None` for -1: the first
      position holding name `n`. */
  function FindIndex<B>(s: seq<Named<B>>, n: string): (r: Option<nat>)
    ensures r.None? <==> !HasName(s, n)
    ensures r.Some? ==> r.value < |s| && s[r.value].name == n
    ensures r.Some? ==> forall k :: 0 <= k < r.value ==> s[k].name != n
  {
    if s == [] then None
    else if s[0].name == n then Some(0)
    else match FindIndex(s[1..], n)
      case None => None
      case Some(k) => Some(k + 1)
  }

  /** In a list with unique names, the found position is the only one. */
  lemma FindIndexUnique<B>(s: seq<Named<B>>, i: nat)
    requires NamesUnique(s) && i < |s|
    ensures FindIndex(s, s[i].name) == Some(i)
  {
  }

  /** `list.find(p => p.name === n)`. */
  function Find<B>(s: seq<Named<B>>, n: string): (r: Option<Named<B>>)
    ensures r.None? <==> !HasName(s, n)
    ensures r.Some? ==> r.value.name == n && r.value in s
  {
    match FindIndex(s, n)
    case None => None
    case Some(i) => Some(s[i])
  }

  /** `list.filter(p => p.name !== n)`. */
  function RemoveNamed<B>(s: seq<Named<B>>, n: string): (r: seq<Named<B>>)
    ensures |r| <= |s|
    ensures !HasName(r, n)
    ensures forall i :: 0 <= i < |r| ==> r[i] in s && r[i].name != n
    ensures forall i :: 0 <= i < |s| && s[i].name != n ==> s[i] in r
  {
    if s == [] then []
    else (if s[0].name == n then [] else [s[0]]) + RemoveNamed(s[1..], n)
  }

  /** Removing a name that is absent changes nothing. */
  lemma {:induction false} RemoveNamedAbsent<B>(s: seq<Named<B>>, n: string)
    requires !HasName(s, n)
    ensures RemoveNamed(s, n) == s
  {
    if s != [] {
      assert !HasName(s[1..], n) by {
        forall k | 0 <= k < |s[1..]| ensures s[1..][k].name != n {
          assert s[1..][k] == s[k + 1];
        }
      }
      RemoveNamedAbsent(s[1..], n);
      assert s == [s[0]] + s[1..];
    }
  }

  /** In a list with unique names, removing the name found at position `i`
      leaves exactly the other records, in their original order. */
  lemma {:induction false} RemoveNamedAt<B>(s: seq<Named<B>>, i: nat)
    requires NamesUnique(s) && i < |s|
    ensures RemoveNamed(s, s[i].name) == s[..i] + s[i + 1..]
  {
    var n := s[i].name;
    if i == 0 {
      assert !HasName(s[1..], n) by {
        forall k | 0 <= k < |s[1..]| ensures s[1..][k].name != n {
          assert s[1..][k] == s[k + 1];
        }
      }
      RemoveNamedAbsent(s[1..], n);
    } else {
      var t := s[1..];
      assert t[i - 1] == s[i];
      assert NamesUnique(t);
      RemoveNamedAt(t, i - 1);
      assert s[0].name != n;
      assert RemoveNamed(s, n) == [s[0]] + RemoveNamed(t, n);
      assert t[..i - 1] == s[1..i];
      assert t[i..] == s[i + 1..];
      assert s[..i] == [s[0]] + s[1..i];
    }
  }

  /** Filtering by name keeps names unique. */
  lemma {:induction false} RemoveNamedKeepsUnique<B>(s: seq<Named<B>>, n: string)
    requires NamesUnique(s)
    ensures NamesUnique(RemoveNamed(s, n))
  {
    if s != [] {
      RemoveNamedKeepsUnique(s[1..], n);
      var rest := RemoveNamed(s[1..], n);
      if s[0].name != n {
        forall j | 0 <= j < |rest| ensures rest[j].name != s[0].name {
          assert rest[j] in s[1..];
        }
        assert RemoveNamed(s, n) == [s[0]] + rest;
      }
    }
  }

  /** `list.length > 0 ? list[0].name : ''`: the active name after a delete. */
  function FirstName<B>(s: seq<Named<B>>): (r: string)
    ensures r == "" || HasName(s, r)
    ensures |s| > 0 ==> r == s[0].name
  {
    if |s| > 0 then s[0].name else ""
  }

  /** An IndexedDB `put` into a store whose key is the record's name: the
      record replaces the one stored under its name, or is added. */
  function Put<B>(s: seq<Named<B>>, x: Named<B>): (r: seq<Named<B>>)
    ensures HasName(r, x.name) && x in r
    ensures !HasName(s, x.name) ==> r == s + [x]
    ensures HasName(s, x.name) ==> |r| == |s|
    ensures forall i :: 0 <= i < |s| && s[i].name != x.name ==> s[i] in r
    ensures forall i :: 0 <= i < |r| ==> r[i] == x || r[i] in s
  {
    match FindIndex(s, x.name)
    case None =>
      assert (s + [x])[|s|] == x;
      s + [x]
    case Some(i) =>
      assert s[i := x][i] == x;
      assert forall k :: 0 <= k < |s| && k != i ==> s[i := x][k] == s[k];
      s[i := x]
  }

  /** A `put` keeps the store's names unique, and looking its name up
      afterwards yields exactly the record written. */
  lemma PutKeepsUnique<B>(s: seq<Named<B>>, x: Named<B>)
    requires NamesUnique(s)
    ensures NamesUnique(Put(s, x))
    ensures Find(Put(s, x), x.name) == Some(x)
  {
    var r := Put(s, x);
    if HasName(s, x.name) {
      var i := FindIndex(s, x.name).value;
      assert r == s[i := x];
      FindIndexUnique(r, i);
    } else {
      FindIndexUnique(r, |s|);
    }
  }

  /** Records whose name is not the one written are left as they were. */
  lemma PutOthers<B>(s: seq<Named<B>>, x: Named<B>, n: string)
    requires NamesUnique(s) && n != x.name
    ensures Find(Put(s, x), n) == Find(s, n)
  {
    PutKeepsUnique(s, x);
    var r := Put(s, x);
    if HasName(s, n) {
      var i := FindIndex(s, n).value;
      assert s[i] in r;
      var j :| 0 <= j < |r| && r[j] == s[i];
      FindIndexUnique(r, j);
    }
  }

  /** A `put` under a name the store holds replaces that record in place. */
  lemma PutAt<B>(s: seq<Named<B>>, i: nat, x: Named<B>)
    requires NamesUnique(s) && i < |s| && s[i].name == x.name
    ensures Put(s, x) == s[i := x]
  {
    FindIndexUnique(s, i);
  }

  /** A series of `put`s, in order. */
  function PutAll<B>(s: seq<Named<B>>, xs: seq<Named<B>>): (r: seq<Named<B>>)
  {
    if xs == [] then s else Put(PutAll(s, xs[..|xs| - 1]), xs[|xs| - 1])
  }

  /** One more `put` at the end of a series. */
  lemma PutAllSnoc<B>(s: seq<Named<B>>, xs: seq<Named<B>>, x: Named<B>)
    ensures PutAll(s, xs + [x]) == Put(PutAll(s, xs), x)
  {
    assert (xs + [x])[..|xs + [x]| - 1] == xs;
  }

  /** A series of `put`s keeps the store's names unique. */
  lemma {:induction false} PutAllKeepsUnique<B>(s: seq<Named<B>>, xs: seq<Named<B>>)
    requires NamesUnique(s)
    ensures NamesUnique(PutAll(s, xs))
  {
    if xs != [] {
      PutAllKeepsUnique(s, xs[..|xs| - 1]);
      PutKeepsUnique(PutAll(s, xs[..|xs| - 1]), xs[|xs| - 1]);
    }
  }
}
