/**
 * The Config Reader: the ports the filtering program currently enforces,
 * read from the `default_ports` and `custom_ports` lines of its
 * configuration file.
 */
module ConfigReader {
  import opened Wrappers
  import opened Text
  import opened Numbers

  const DefaultKey: string := "default_ports"
  const CustomKey: string := "custom_ports"

  /** A line declares `key` when its trimmed text starts with it. */
  predicate Declares(line: string, key: string)
  {
    StartsWith(Trim(line), key)
  }

  /** The index of the first line declaring `key`, if any. */
  function FirstDeclaring(lines: seq<string>, key: string): (r: Option<nat>)
    ensures r.Some? ==> r.value < |lines| && Declares(lines[r.value], key)
    ensures forall j :: 0 <= j < |lines| && (r.None? || j < r.value) ==> !Declares(lines[j], key)
  {
    if lines == [] then None
    else if Declares(lines[0], key) then Some(0)
    else
      match FirstDeclaring(lines[1..], key)
      case None => None
      case Some(i) => Some(i + 1)
  }

  /** `lines.find(l => l.trim().startsWith(key)) || ''` */
  function DeclarationLine(lines: seq<string>, key: string): (l: string)
    ensures forall j :: 0 <= j < |lines| && Declares(lines[j], key) ==> l in lines && Declares(l, key)
    ensures (forall j :: 0 <= j < |lines| ==> !Declares(lines[j], key)) ==> l == ""
    ensures forall i ::
              0 <= i < |lines| && Declares(lines[i], key) && (forall j :: 0 <= j < i ==> !Declares(lines[j], key))
              ==> l == lines[i]
  {
    match FirstDeclaring(lines, key)
    case None => ""
    case Some(i) => lines[i]
  }

  /** Without a line declaring `key`, `find` falls back to the empty line. */
  lemma NoDeclarationLine(lines: seq<string>, key: string)
    requires forall l :: l in lines ==> !Declares(l, key)
    ensures DeclarationLine(lines, key) == ""
  {
  }

  /** An entry as the reader keeps it: not empty, no white space at either end. */
  predicate IsEntry(e: string)
  {
    e != [] && !IsSpace(e[0]) && !IsSpace(e[|e| - 1])
  }

  /** `pieces.map(s => s.trim()).filter(Boolean)`: the non-empty trimmed pieces, in order. */
  function CleanEntries(pieces: seq<string>): (r: seq<string>)
    ensures |r| <= |pieces|
    ensures forall i :: 0 <= i < |r| ==> r[i] != []
  {
    if pieces == [] then []
    else
      var t := Trim(pieces[0]);
      var rest := CleanEntries(pieces[1..]);
      if t == [] then rest
      else
        var r := [t] + rest;
        assert forall i :: 1 <= i < |r| ==> r[i] == rest[i - 1];
        r
  }

  /** Every kept entry is a trimmed, non-empty text. */
  lemma {:induction false} CleanEntriesTrimmed(pieces: seq<string>)
    ensures forall i :: 0 <= i < |CleanEntries(pieces)| ==> IsEntry(CleanEntries(pieces)[i])
  {
    if pieces != [] {
      CleanEntriesTrimmed(pieces[1..]);
    }
  }

  /** An entry is kept exactly when it is the non-empty trimmed text of some piece. */
  lemma {:induction false} CleanEntriesMembers(pieces: seq<string>, e: string)
    ensures e in CleanEntries(pieces) <==> e != [] && exists p :: p in pieces && Trim(p) == e
  {
    if pieces != [] {
      CleanEntriesMembers(pieces[1..], e);
      if exists p :: p in pieces && Trim(p) == e {
        var p :| p in pieces && Trim(p) == e;
        if p != pieces[0] {
          assert p in pieces[1..];
        }
      }
      if exists p :: p in pieces[1..] && Trim(p) == e {
        var p :| p in pieces[1..] && Trim(p) == e;
        assert p in pieces;
      }
    }
  }

  /**
   * The entries of a declaration line (inner `parsePorts` before `Number`):
   * the text between the first and second `=`, when it is not empty, split
   * on commas, trimmed, with empty entries dropped.
   */
  function Entries(line: string): (r: seq<string>)
    ensures forall i :: 0 <= i < |r| ==> IsEntry(r[i])
  {
    var parts := Split(line, '=');
    if |parts| >= 2 && parts[1] != [] then
      CleanEntriesTrimmed(Split(parts[1], ','));
      CleanEntries(Split(parts[1], ','))
    else []
  }

  /**
   * A declaration `head=` followed by comma-separated pieces declares
   * exactly the pieces' trimmed, non-empty texts, in order.
   */
  lemma DeclarationEntries(head: string, pieces: seq<string>)
    requires |pieces| >= 1 && '=' !in head
    requires forall i :: 0 <= i < |pieces| ==> '=' !in pieces[i] && ',' !in pieces[i]
    ensures Entries(head + "=" + Join(pieces, ',')) == CleanEntries(pieces)
  {
    var value := Join(pieces, ',');
    JoinAvoids(pieces, ',', '=');
    SplitJoin([head, value], '=');
    assert Join([head, value], '=') == head + "=" + value by {
      assert Join([value], '=') == value;
    }
    if value == [] {
      assert |pieces| == 1 && pieces[0] == [];
      assert Trim(pieces[0]) == [];
    } else {
      SplitJoin(pieces, ',');
    }
  }

  /** The integer values among the entries (`Number`, then `Number.isInteger`). */
  function EntryValues(entries: seq<string>): (vs: set<int>)
    ensures forall e :: e in entries && ParseNum(e).Some? ==> ParseNum(e).value in vs
    ensures forall v :: v in vs ==> exists i :: 0 <= i < |entries| && ParseNum(entries[i]) == Some(v)
  {
    set e | e in entries && ParseNum(e).Some? :: ParseNum(e).value
  }

  /** The entries of the first `default_ports` line and the first `custom_ports` line. */
  function DeclaredEntries(text: string): (r: seq<string>)
    ensures forall i :: 0 <= i < |r| ==> IsEntry(r[i])
  {
    var lines := Split(text, '\n');
    Entries(DeclarationLine(lines, DefaultKey)) + Entries(DeclarationLine(lines, CustomKey))
  }

  predicate StrictlyAscending(s: seq<int>)
  {
    forall i, j :: 0 <= i < j < |s| ==> s[i] < s[j]
  }

  /** A value below every element of an ascending list can lead it. */
  lemma AscendingCons(h: int, rest: seq<int>)
    requires StrictlyAscending(rest)
    requires forall y :: y in rest ==> h < y
    ensures StrictlyAscending([h] + rest)
  {
    var r := [h] + rest;
    forall i, j | 0 <= i < j < |r|
      ensures r[i] < r[j]
    {
      assert r[j] == rest[j - 1];
      if i > 0 {
        assert r[i] == rest[i - 1];
      } else {
        assert rest[j - 1] in rest;
      }
    }
  }

  /** Adds `x` to an ascending list without duplicates, in its place. */
  function Insert(s: seq<int>, x: int): (r: seq<int>)
    requires StrictlyAscending(s)
    ensures StrictlyAscending(r)
    ensures forall y :: y in r <==> y in s || y == x
  {
    if s == [] then [x]
    else if x < s[0] then
      AscendingCons(x, s);
      [x] + s
    else if x == s[0] then s
    else
      var rest := Insert(s[1..], x);
      assert forall y :: y in s <==> y == s[0] || y in s[1..] by {
        assert s == [s[0]] + s[1..];
      }
      assert forall y :: y in s[1..] ==> s[0] < y;
      AscendingCons(s[0], rest);
      [s[0]] + rest
  }

  lemma EntryValuesCons(entries: seq<string>)
    requires entries != []
    ensures EntryValues(entries) == EntryValues([entries[0]]) + EntryValues(entries[1..])
  {
    forall p | p in EntryValues(entries)
      ensures p in EntryValues([entries[0]]) + EntryValues(entries[1..])
    {
      var e :| e in entries && ParseNum(e).Some? && ParseNum(e).value == p;
      if e != entries[0] {
        assert e in entries[1..];
      }
    }
  }

  /**
   * `Array.from(new Set([...acc, ...values])).filter(Number.isInteger).sort((a, b) => a - b)`
   * folded over the entries: the union, without duplicates, ascending.
   */
  function SortedUnion(acc: seq<int>, entries: seq<string>): (r: seq<int>)
    requires StrictlyAscending(acc)
    ensures StrictlyAscending(r)
    ensures forall p :: p in r <==> p in acc || p in EntryValues(entries)
    decreases |entries|
  {
    if entries == [] then acc
    else
      var acc' := match ParseNum(entries[0])
                  case Some(v) => Insert(acc, v)
                  case None => acc;
      EntryValuesCons(entries);
      SortedUnion(acc', entries[1..])
  }

  /**
   * `readFirewallPorts`: None when the configuration cannot be read,
   * otherwise the integer entries of both declaration lines, each once,
   * in ascending order.
   */
  function ReadFirewallPorts(conf: Option<string>): (r: Option<seq<int>>)
    ensures r.None? <==> conf.None?
    ensures r.Some? ==> StrictlyAscending(r.value)
    ensures r.Some? ==> forall p :: p in r.value <==> p in EntryValues(DeclaredEntries(conf.value))
  {
    match conf
    case None => None
    case Some(text) => Some(SortedUnion([], DeclaredEntries(text)))
  }

  /** An ascending list without duplicates is determined by its elements. */
  lemma {:induction false} AscendingUnique(a: seq<int>, b: seq<int>)
    requires StrictlyAscending(a) && StrictlyAscending(b)
    requires forall x :: x in a <==> x in b
    ensures a == b
  {
    if a != [] {
      assert a[0] in a;
    }
    if b != [] {
      assert b[0] in b;
    }
    if a != [] && b != [] {
      assert a[0] == b[0];
      forall x
        ensures x in a[1..] <==> x in b[1..]
      {
        assert x in a[1..] <==> x in a && x > a[0];
        assert x in b[1..] <==> x in b && x > b[0];
      }
      AscendingUnique(a[1..], b[1..]);
      assert a == [a[0]] + a[1..] && b == [b[0]] + b[1..];
    }
  }

  /** A line with no `=` contributes no entries and cannot fail. */
  lemma NoEqualsNoEntries(line: string)
    requires '=' !in line
    ensures Entries(line) == []
  {
    SplitPrefix(line, [], '=');
    assert line + [] == line;
  }
}
