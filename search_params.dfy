/**
 * The query-string builder both the route and the page use: an ordered list of
 * name/value pairs with the `get`, `set` and `delete` of `URLSearchParams`.
 * Percent-encoding is not modelled; `ToString` joins `name=value` pairs with `&`.
 */
module Params {
  import opened Wrappers
  import opened Seqs

  type Entry = (string, string)

  function Names(entries: seq<Entry>): (r: seq<string>)
    ensures |r| == |entries| && forall i :: 0 <= i < |r| ==> r[i] == entries[i].0
  {
    seq(|entries|, i requires 0 <= i < |entries| => entries[i].0)
  }

  /** Position `i` holds the first pair named `name`. */
  predicate FirstAt(entries: seq<Entry>, name: string, i: int) {
    0 <= i < |entries| && entries[i].0 == name && name !in Names(entries[..i])
  }

  /** `get`: the value of the first pair with that name. */
  function Lookup(entries: seq<Entry>, name: string): (r: Option<string>)
    ensures r.None? <==> name !in Names(entries)
    ensures forall i :: FirstAt(entries, name, i) ==> r == Some(entries[i].1)
  {
    if entries == [] then None
    else if entries[0].0 == name then
      Some(entries[0].1)
    else
      var r := Lookup(entries[1..], name);
      assert Names(entries[1..]) == Names(entries)[1..];
      assert forall i :: FirstAt(entries, name, i) ==> FirstAt(entries[1..], name, i - 1) by {
        forall i | FirstAt(entries, name, i) ensures FirstAt(entries[1..], name, i - 1) {
          assert i != 0;
          assert Names(entries[1..][..i - 1]) == Names(entries[..i])[1..];
        }
      }
      r
  }

  /** A present name has a first pair. */
  lemma {:induction false} FirstPair(entries: seq<Entry>, name: string)
    requires name in Names(entries)
    ensures exists i :: FirstAt(entries, name, i)
  {
    if entries[0].0 == name {
      assert FirstAt(entries, name, 0);
    } else {
      assert Names(entries[1..]) == Names(entries)[1..];
      FirstPair(entries[1..], name);
      var j :| FirstAt(entries[1..], name, j);
      assert Names(entries[..j + 1]) == [entries[0].0] + Names(entries[1..][..j]);
      assert FirstAt(entries, name, j + 1);
    }
  }

  /** With unique names, `get` finds each pair's own value. */
  lemma {:induction false} LookupUnique(entries: seq<Entry>, i: nat)
    requires NoDup(Names(entries)) && i < |entries|
    ensures Lookup(entries, entries[i].0) == Some(entries[i].1)
  {
    if i > 0 {
      assert Names(entries)[0] != Names(entries)[i];
      assert Names(entries[1..]) == Names(entries)[1..];
      LookupUnique(entries[1..], i - 1);
    }
  }

  /** `delete`: every pair with that name removed, the rest in order. */
  function DeleteEntries(entries: seq<Entry>, name: string): (r: seq<Entry>)
    ensures forall i :: 0 <= i < |r| ==> r[i].0 != name && r[i] in entries
    ensures forall e :: e in entries && e.0 != name ==> e in r
  {
    if entries == [] then []
    else (if entries[0].0 == name then [] else [entries[0]]) + DeleteEntries(entries[1..], name)
  }

  /** The pair list of `set` when the name is present: the first pair gets the value, later ones go. */
  function ReplaceFirst(entries: seq<Entry>, name: string, value: string): seq<Entry> {
    if entries == [] then []
    else if entries[0].0 == name then [(name, value)] + DeleteEntries(entries[1..], name)
    else [entries[0]] + ReplaceFirst(entries[1..], name, value)
  }

  /** `set`: replace the first pair with that name and drop the others, or append a new pair. */
  function SetEntries(entries: seq<Entry>, name: string, value: string): seq<Entry> {
    if name in Names(entries) then ReplaceFirst(entries, name, value) else entries + [(name, value)]
  }

  /** Deleting leaves nothing under `name`, and first values under every other name unchanged. */
  lemma {:induction false} DeleteLookup(entries: seq<Entry>, name: string, other: string)
    ensures Lookup(DeleteEntries(entries, name), name) == None
    ensures other != name ==> Lookup(DeleteEntries(entries, name), other) == Lookup(entries, other)
  {
    if entries != [] {
      DeleteLookup(entries[1..], name, other);
      var rest := DeleteEntries(entries[1..], name);
      if entries[0].0 == name {
        assert DeleteEntries(entries, name) == rest;
      } else {
        var d := [entries[0]] + rest;
        assert DeleteEntries(entries, name) == d;
        assert d[0] == entries[0] && d[1..] == rest;
      }
    }
  }

  lemma {:induction false} ReplaceFirstLookup(entries: seq<Entry>, name: string, value: string, other: string)
    requires name in Names(entries)
    ensures Lookup(ReplaceFirst(entries, name, value), name) == Some(value)
    ensures other != name ==> Lookup(ReplaceFirst(entries, name, value), other) == Lookup(entries, other)
  {
    if entries[0].0 == name {
      DeleteLookup(entries[1..], name, other);
    } else {
      assert Names(entries[1..]) == Names(entries)[1..];
      ReplaceFirstLookup(entries[1..], name, value, other);
    }
  }

  lemma {:induction false} AppendLookup(entries: seq<Entry>, name: string, value: string, other: string)
    requires name !in Names(entries)
    ensures Lookup(entries + [(name, value)], name) == Some(value)
    ensures other != name ==> Lookup(entries + [(name, value)], other) == Lookup(entries, other)
  {
    if entries != [] {
      assert (entries + [(name, value)])[1..] == entries[1..] + [(name, value)];
      assert Names(entries[1..]) == Names(entries)[1..];
      AppendLookup(entries[1..], name, value, other);
    } else {
      assert [(name, value)][1..] == [];
    }
  }

  /** After `set`, `get` of that name gives the new value and every other name reads as before. */
  lemma SetLookup(entries: seq<Entry>, name: string, value: string, other: string)
    ensures Lookup(SetEntries(entries, name, value), name) == Some(value)
    ensures other != name ==> Lookup(SetEntries(entries, name, value), other) == Lookup(entries, other)
  {
    if name in Names(entries) {
      ReplaceFirstLookup(entries, name, value, other);
    } else {
      AppendLookup(entries, name, value, other);
    }
  }

  /** `set` and `delete` keep names unique when they already were. */
  lemma {:induction false} DeleteKeepsNamesUnique(entries: seq<Entry>, name: string)
    requires NoDup(Names(entries))
    ensures NoDup(Names(DeleteEntries(entries, name)))
  {
    if entries != [] {
      assert Names(entries[1..]) == Names(entries)[1..];
      DeleteKeepsNamesUnique(entries[1..], name);
      var rest := DeleteEntries(entries[1..], name);
      if entries[0].0 != name {
        forall e | e in rest ensures e.0 != entries[0].0 {
          assert e in entries[1..];
        }
        assert Names([entries[0]] + rest) == [entries[0].0] + Names(rest);
      }
      else {
        assert [] + rest == rest;
      }
    }
  }

  lemma {:induction false} ReplaceFirstKeepsNamesUnique(entries: seq<Entry>, name: string, value: string)
    requires NoDup(Names(entries))
    ensures Names(ReplaceFirst(entries, name, value)) == Names(entries)
  {
    if entries != [] {
      assert Names(entries[1..]) == Names(entries)[1..];
      if entries[0].0 == name {
        assert DeleteEntries(entries[1..], name) == entries[1..] by {
          DeleteAbsent(entries[1..], name);
        }
      } else {
        ReplaceFirstKeepsNamesUnique(entries[1..], name, value);
      }
    }
  }

  lemma {:induction false} DeleteAbsent(entries: seq<Entry>, name: string)
    requires name !in Names(entries)
    ensures DeleteEntries(entries, name) == entries
  {
    if entries != [] {
      assert Names(entries[1..]) == Names(entries)[1..];
      DeleteAbsent(entries[1..], name);
    }
  }

  lemma SetKeepsNamesUnique(entries: seq<Entry>, name: string, value: string)
    requires NoDup(Names(entries))
    ensures NoDup(Names(SetEntries(entries, name, value)))
  {
    if name in Names(entries) {
      ReplaceFirstKeepsNamesUnique(entries, name, value);
    } else {
      assert Names(entries + [(name, value)]) == Names(entries) + [name];
    }
  }

  /** `delete` and `set` introduce no name but the one they are given. */
  lemma {:induction false} DeleteNames(entries: seq<Entry>, name: string)
    ensures forall n :: n in Names(DeleteEntries(entries, name)) ==> n in Names(entries) && n != name
  {
    var r := DeleteEntries(entries, name);
    forall n | n in Names(r) ensures n in Names(entries) && n != name {
      var k :| 0 <= k < |r| && Names(r)[k] == n;
      assert r[k] in entries;
      var j :| 0 <= j < |entries| && entries[j] == r[k];
      assert Names(entries)[j] == n;
    }
  }

  lemma SetNames(entries: seq<Entry>, name: string, value: string)
    ensures forall n :: n in Names(SetEntries(entries, name, value)) ==> n in Names(entries) || n == name
  {
    if name in Names(entries) {
      ReplaceFirstNames(entries, name, value);
    } else {
      assert Names(entries + [(name, value)]) == Names(entries) + [name];
    }
  }

  lemma {:induction false} ReplaceFirstNames(entries: seq<Entry>, name: string, value: string)
    ensures forall n :: n in Names(ReplaceFirst(entries, name, value)) ==> n in Names(entries)
  {
    if entries != [] {
      var first := entries[0];
      var rest := if first.0 == name then DeleteEntries(entries[1..], name) else ReplaceFirst(entries[1..], name, value);
      if first.0 == name {
        DeleteNames(entries[1..], name);
      } else {
        ReplaceFirstNames(entries[1..], name, value);
      }
      ConsNames(first, entries[1..]);
      ConsNames(if first.0 == name then (name, value) else first, rest);
    }
  }

  /** The names of a pair list with one more pair in front. */
  lemma ConsNames(e: Entry, entries: seq<Entry>)
    ensures forall n :: n in Names([e] + entries) <==> n == e.0 || n in Names(entries)
  {
    assert Names([e] + entries) == [e.0] + Names(entries);
  }

  /** `toString` without percent-encoding: `name=value` pairs joined with `&`. */
  function Serialize(entries: seq<Entry>): string {
    Join("&", seq(|entries|, i requires 0 <= i < |entries| => entries[i].0 + "=" + entries[i].1))
  }

  /** A `URLSearchParams` object: its pair list is the state `set` and `delete` change. */
  class SearchParams {
    var entries: seq<Entry>

    /** `new URLSearchParams(record)`: the record's pairs in order. */
    constructor (init: seq<Entry>)
      ensures entries == init
    {
      entries := init;
    }

    /** `get`: none for an absent name, otherwise the value of its first pair. */
    function Get(name: string): (r: Option<string>)
      reads this
      ensures r.None? <==> name !in Names(entries)
      ensures forall i :: FirstAt(entries, name, i) ==> r == Some(entries[i].1)
    {
      Lookup(entries, name)
    }

    method Set(name: string, value: string)
      modifies this
      ensures entries == SetEntries(old(entries), name, value)
      ensures Get(name) == Some(value)
      ensures forall other :: other != name ==> Get(other) == old(Get(other))
      ensures NoDup(Names(old(entries))) ==> NoDup(Names(entries))
    {
      forall other | other != name
        ensures Lookup(SetEntries(entries, name, value), other) == Lookup(entries, other)
      {
        SetLookup(entries, name, value, other);
      }
      SetLookup(entries, name, value, name);
      if NoDup(Names(entries)) {
        SetKeepsNamesUnique(entries, name, value);
      }
      entries := SetEntries(entries, name, value);
    }

    method Delete(name: string)
      modifies this
      ensures entries == DeleteEntries(old(entries), name)
      ensures Get(name) == None
      ensures forall other :: other != name ==> Get(other) == old(Get(other))
      ensures NoDup(Names(old(entries))) ==> NoDup(Names(entries))
    {
      forall other | other != name
        ensures Lookup(DeleteEntries(entries, name), other) == Lookup(entries, other)
      {
        DeleteLookup(entries, name, other);
      }
      DeleteLookup(entries, name, name);
      if NoDup(Names(entries)) {
        DeleteKeepsNamesUnique(entries, name);
      }
      entries := DeleteEntries(entries, name);
    }

    function ToString(): string
      reads this
    {
      Serialize(entries)
    }
  }
}
