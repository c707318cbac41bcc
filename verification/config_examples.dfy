/**
 * A worked configuration: `default_ports = 22,80` and
 * `custom_ports = 80,443` give the ports [22, 80, 443].
 *
 * The example's lines are lemma parameters pinned by `requires` rather
 * than literals written inside the proofs, so that the verifier does not
 * evaluate the recursive definitions on the literal text and the proofs
 * stay fast.
 */
module ConfigExamples {
  import opened Wrappers
  import opened Text
  import opened Numbers
  import opened ConfigReader

  lemma TwoCleanEntries(a: string, b: string)
    requires a != [] && !IsSpace(a[0]) && !IsSpace(a[|a| - 1])
    requires b != [] && !IsSpace(b[0]) && !IsSpace(b[|b| - 1])
    ensures CleanEntries([[' '] + a, b]) == [a, b]
  {
    var pieces := [[' '] + a, b];
    assert Trim(pieces[0]) == a by {
      TrimPadded([' '], a, []);
      assert [' '] + a + [] == pieces[0];
    }
    assert Trim(pieces[1]) == b by {
      TrimPadded([], b, []);
      assert [] + b + [] == b;
    }
    assert pieces[1..][1..] == [];
    calc {
      CleanEntries(pieces);
      [a] + CleanEntries(pieces[1..]);
      [a] + ([b] + CleanEntries(pieces[1..][1..]));
      [a, b];
    }
  }

  /** A line with no white space at its ends that starts with `key` declares it. */
  lemma DeclaresKey(line: string, key: string)
    requires line != [] && !IsSpace(line[0]) && !IsSpace(line[|line| - 1])
    requires |key| <= |line| && line[..|key|] == key
    ensures Declares(line, key)
  {
    TrimPadded([], line, []);
    assert [] + line + [] == line;
  }

  /** Such a line does not declare a key that starts with another character. */
  lemma OtherKey(line: string, key: string)
    requires line != [] && !IsSpace(line[0]) && !IsSpace(line[|line| - 1])
    requires key != [] && key[0] != line[0]
    ensures !Declares(line, key)
  {
    TrimPadded([], line, []);
    assert [] + line + [] == line;
  }

  lemma ExampleDeclarations(l1: string, l2: string)
    requires l1 == "default_ports = 22,80" && l2 == "custom_ports = 80,443"
    ensures DeclarationLine([l1, l2], DefaultKey) == l1
    ensures DeclarationLine([l1, l2], CustomKey) == l2
  {
    DeclaresKey(l1, DefaultKey);
    OtherKey(l1, CustomKey);
    DeclaresKey(l2, CustomKey);
    assert [l1, l2][1..] == [l2];
    assert FirstDeclaring([l2], CustomKey) == Some(0);
    assert FirstDeclaring([l1, l2], CustomKey) == Some(1);
  }

  /** A line `head= a,b` declares the two entries a and b. */
  lemma PairEntries(line: string, head: string, a: string, b: string)
    requires line == head + "= " + a + "," + b
    requires '=' !in head && '=' !in a && '=' !in b && ',' !in a && ',' !in b
    requires a != [] && !IsSpace(a[0]) && !IsSpace(a[|a| - 1])
    requires b != [] && !IsSpace(b[0]) && !IsSpace(b[|b| - 1])
    ensures Entries(line) == [a, b]
  {
    var pieces := [[' '] + a, b];
    assert line == head + "=" + Join(pieces, ',') by {
      assert Join(pieces[1..], ',') == b;
    }
    DeclarationEntries(head, pieces);
    TwoCleanEntries(a, b);
  }

  /** The example's lines in the shape `PairEntries` reads. */
  lemma ExampleLineShapes(l1: string, l2: string)
    requires l1 == "default_ports = 22,80" && l2 == "custom_ports = 80,443"
    ensures l1 == "default_ports " + "= " + "22" + "," + "80"
    ensures l2 == "custom_ports " + "= " + "80" + "," + "443"
  {
  }

  lemma ExampleLineEntries(l1: string, l2: string)
    requires l1 == "default_ports = 22,80" && l2 == "custom_ports = 80,443"
    ensures Entries(l1) == ["22", "80"] && Entries(l2) == ["80", "443"]
  {
    ExampleLineShapes(l1, l2);
    PairEntries(l1, "default_ports ", "22", "80");
    PairEntries(l2, "custom_ports ", "80", "443");
  }

  lemma ExampleDeclaredEntries(text: string, l1: string, l2: string)
    requires l1 == "default_ports = 22,80" && l2 == "custom_ports = 80,443"
    requires Split(text, '\n') == [l1, l2]
    ensures DeclaredEntries(text) == ["22", "80", "80", "443"]
  {
    ExampleDeclarations(l1, l2);
    ExampleLineEntries(l1, l2);
  }

  /** The example's entries are the numbers 22, 80 and 443. */
  lemma ExampleNumbers()
    ensures ParseNum("22") == Some(22) && ParseNum("80") == Some(80) && ParseNum("443") == Some(443)
  {
    DecimalRoundTrip(22);
    DecimalRoundTrip(80);
    DecimalRoundTrip(443);
    assert ToDecimal(22) == "22" && ToDecimal(80) == "80" && ToDecimal(443) == "443";
  }

  /** The integer values of the example's entries. */
  lemma ExampleValues(entries: seq<string>)
    requires entries == ["22", "80", "80", "443"]
    ensures forall p :: p in EntryValues(entries) <==> p == 22 || p == 80 || p == 443
  {
    ExampleNumbers();
    assert entries[0] == "22" && entries[1] == "80" && entries[2] == "80" && entries[3] == "443";
    forall p | p in EntryValues(entries)
      ensures p == 22 || p == 80 || p == 443
    {
      var i :| 0 <= i < |entries| && ParseNum(entries[i]) == Some(p);
    }
  }

  /** Merging `22,80,80,443` gives `[22, 80, 443]`: the one ascending list with those members. */
  lemma ExampleSortedUnion(entries: seq<string>)
    requires entries == ["22", "80", "80", "443"]
    ensures SortedUnion([], entries) == [22, 80, 443]
  {
    ExampleValues(entries);
    var r := SortedUnion([], entries);
    assert forall p :: p in r <==> p in [22, 80, 443];
    AscendingUnique(r, [22, 80, 443]);
  }

  lemma ExampleLines(l1: string, l2: string)
    requires l1 == "default_ports = 22,80" && l2 == "custom_ports = 80,443"
    ensures Split(l1 + "\n" + l2, '\n') == [l1, l2]
  {
    assert '\n' !in l1 && '\n' !in l2;
    SplitJoin([l1, l2], '\n');
    assert Join([l1, l2], '\n') == l1 + "\n" + l2 by {
      assert Join([l2], '\n') == l2;
    }
  }

  /**
   * The configuration `default_ports = 22,80` / `custom_ports = 80,443`:
   * the union of both lines, without the repeated 80, ascending.
   */
  lemma MergeExample(l1: string, l2: string)
    requires l1 == "default_ports = 22,80" && l2 == "custom_ports = 80,443"
    ensures ReadFirewallPorts(Some(l1 + "\n" + l2)) == Some([22, 80, 443])
  {
    var text := l1 + "\n" + l2;
    ExampleLines(l1, l2);
    ExampleDeclaredEntries(text, l1, l2);
    ExampleSortedUnion(DeclaredEntries(text));
  }
}
