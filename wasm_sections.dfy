/** The section layer of a WebAssembly module as the module builder writes
    it: the 8-byte preamble, then each section as its id byte, its payload
    length as an unsigned LEB128 and the payload (sections 5.5.2 and 5.5.15
    of the WebAssembly Core Specification 1.0). */
module WasmSections {
  import opened Ints
  import opened Leb128
  import opened WasmInstructions

  /** A section: its id and its payload bytes. */
  datatype Section = Section(id: u8, data: seq<u8>)

  /** The bytes the entries write, one after the other. */
  function Concat(entries: seq<seq<u8>>): (r: seq<u8>)
  {
    if entries == [] then [] else Concat(entries[..|entries| - 1]) + entries[|entries| - 1]
  }

  /** The payload `add_section` builds: the entry count (cast to u32) as an
      unsigned LEB128, then the bytes every entry writes. */
  function SectionData(entries: seq<seq<u8>>): seq<u8>
  {
    WriteLebU32(AsU32(|entries|)) + Concat(entries)
  }

  /** The bytes one section occupies in the module: id, payload length (cast
      to u32) as an unsigned LEB128, payload. */
  function SectionBytes(s: Section): seq<u8>
  {
    [s.id] + WriteLebU32(AsU32(|s.data|)) + s.data
  }

  /** The sections written in order. */
  function Serialize(sections: seq<Section>): seq<u8>
  {
    if sections == [] then [] else SectionBytes(sections[0]) + Serialize(sections[1..])
  }

  lemma {:induction false} SerializeAppend(a: seq<Section>, b: seq<Section>)
    ensures Serialize(a + b) == Serialize(a) + Serialize(b)
  {
    if a == [] {
      assert a + b == b;
    } else {
      assert (a + b)[0] == a[0];
      assert (a + b)[1..] == a[1..] + b;
      SerializeAppend(a[1..], b);
    }
  }

  /** A little-endian u32, as `write_u32::<LittleEndian>` writes it. */
  function U32LE(x: u32): seq<u8>
  {
    [x % 0x100, x / 0x100 % 0x100, x / 0x1_0000 % 0x100, x / 0x100_0000]
  }

  const MAGIC: u32 := 0x6d736100
  const VERSION: u32 := 1

  /** The preamble: the magic number and the version, each a little-endian
      u32. They are the bytes `\0asm` and version 1 that section 5.5.15 of
      the WebAssembly Core Specification 1.0 requires. */
  function Header(): (r: seq<u8>)
    ensures r == [0x00, 0x61, 0x73, 0x6D, 0x01, 0x00, 0x00, 0x00]
  {
    U32LE(MAGIC) + U32LE(VERSION)
  }

  /** Every section payload has a length that fits the u32 the builder casts
      it to. */
  predicate Representable(sections: seq<Section>)
  {
    forall i :: 0 <= i < |sections| ==> |sections[i].data| < U32_LIMIT
  }

  // Ordering the sections by id, as `write_to_stream` does before writing.

  predicate SortedById(sections: seq<Section>)
  {
    forall i, j :: 0 <= i < j < |sections| ==> sections[i].id <= sections[j].id
  }

  /** Inserts `s` into a sorted sequence after every section whose id is not
      greater than its own. */
  function InsertById(sorted: seq<Section>, s: Section): (r: seq<Section>)
    ensures |r| == |sorted| + 1
  {
    if sorted == [] then [s]
    else if sorted[|sorted| - 1].id <= s.id then sorted + [s]
    else InsertById(sorted[..|sorted| - 1], s) + [sorted[|sorted| - 1]]
  }

  /** The sections ordered by id (insertion sort). */
  function SortById(sections: seq<Section>): (r: seq<Section>)
    ensures |r| == |sections|
  {
    if sections == [] then []
    else InsertById(SortById(sections[..|sections| - 1]), sections[|sections| - 1])
  }

  lemma {:induction false} InsertPermutes(sorted: seq<Section>, s: Section)
    ensures multiset(InsertById(sorted, s)) == multiset(sorted) + multiset{s}
  {
    if sorted != [] && sorted[|sorted| - 1].id > s.id {
      var init := sorted[..|sorted| - 1];
      var last := sorted[|sorted| - 1];
      InsertPermutes(init, s);
      assert sorted == init + [last];
    }
  }

  lemma {:induction false} InsertSorted(sorted: seq<Section>, s: Section)
    requires SortedById(sorted)
    ensures SortedById(InsertById(sorted, s))
  {
    if sorted != [] && sorted[|sorted| - 1].id > s.id {
      var init := sorted[..|sorted| - 1];
      var last := sorted[|sorted| - 1];
      InsertSorted(init, s);
      InsertPermutes(init, s);
      var r := InsertById(init, s);
      forall i | 0 <= i < |r|
        ensures r[i].id <= last.id
      {
        assert r[i] in multiset(r);
        if r[i] != s {
          assert r[i] in multiset(init);
          var k :| 0 <= k < |init| && init[k] == r[i];
        }
      }
      assert InsertById(sorted, s) == r + [last];
    }
  }

  /** Sorting yields a sequence ordered by id with the same sections. */
  lemma {:induction false} SortByIdSorts(sections: seq<Section>)
    ensures SortedById(SortById(sections))
    ensures multiset(SortById(sections)) == multiset(sections)
  {
    if sections != [] {
      var init := sections[..|sections| - 1];
      SortByIdSorts(init);
      InsertSorted(SortById(init), sections[|sections| - 1]);
      InsertPermutes(SortById(init), sections[|sections| - 1]);
      assert sections == init + [sections[|sections| - 1]];
    }
  }

  /** Sections that are already in id order are left as they are. */
  lemma {:induction false} SortByIdKeepsSorted(sections: seq<Section>)
    requires SortedById(sections)
    ensures SortById(sections) == sections
  {
    if sections != [] {
      var init := sections[..|sections| - 1];
      SortByIdKeepsSorted(init);
      assert sections == init + [sections[|sections| - 1]];
    }
  }

  /** Sorting keeps every payload representable. */
  lemma SortKeepsRepresentable(sections: seq<Section>)
    requires Representable(sections)
    ensures Representable(SortById(sections))
  {
    SortByIdSorts(sections);
    var r := SortById(sections);
    forall i | 0 <= i < |r|
      ensures |r[i].data| < U32_LIMIT
    {
      assert r[i] in multiset(r);
      assert r[i] in multiset(sections);
    }
  }

  /** With distinct ids there is only one id-ordered arrangement of a set of
      sections, so the order does not depend on the sort being stable. */
  lemma {:induction false} SortedDistinctUnique(a: seq<Section>, b: seq<Section>)
    requires StrictlySortedById(a) && StrictlySortedById(b)
    requires multiset(a) == multiset(b)
    ensures a == b
  {
    if a != [] {
      assert a[0] in multiset(a);
      SameHead(a, b);
      TailMultiset(a);
      TailMultiset(b);
      TailStrictlySorted(a);
      TailStrictlySorted(b);
      SortedDistinctUnique(a[1..], b[1..]);
      assert a == [a[0]] + a[1..];
      assert b == [b[0]] + b[1..];
    }
  }

  lemma SameHead(a: seq<Section>, b: seq<Section>)
    requires StrictlySortedById(a) && StrictlySortedById(b)
    requires multiset(a) == multiset(b) && a != []
    ensures b != [] && a[0] == b[0]
  {
    assert a[0] in multiset(b);
    var i :| 0 <= i < |b| && b[i] == a[0];
    assert b[0].id <= a[0].id;
    assert b[0] in multiset(a);
    var j :| 0 <= j < |a| && a[j] == b[0];
    assert a[0].id <= b[0].id;
  }

  lemma TailStrictlySorted(a: seq<Section>)
    requires StrictlySortedById(a) && a != []
    ensures StrictlySortedById(a[1..])
  {
    forall i, j | 0 <= i < j < |a| - 1
      ensures a[1..][i].id < a[1..][j].id
    {
      assert a[1..][i] == a[i + 1] && a[1..][j] == a[j + 1];
    }
  }

  lemma TailMultiset(a: seq<Section>)
    requires a != []
    ensures multiset(a[1..]) == multiset(a) - multiset{a[0]}
  {
    assert a == [a[0]] + a[1..];
  }

  predicate StrictlySortedById(sections: seq<Section>)
  {
    forall i, j :: 0 <= i < j < |sections| ==> sections[i].id < sections[j].id
  }
}
