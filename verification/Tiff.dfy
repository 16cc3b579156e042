/** Counting a TIFF's pages by following its chain of directories (internal/fileview/orientation.go). */
module Tiff {
  import opened Bytes

  /** The number in two bytes, or in four. */
  function ShortAt(data: Text, at: nat, order: Order): nat
    requires at + 2 <= |data|
  {
    Short(data[at], data[at + 1], order)
  }

  function Long(data: Text, at: nat, order: Order): nat
    requires at + 4 <= |data|
  {
    if order.Little? then ShortAt(data, at, order) + 0x1_0000 * ShortAt(data, at + 2, order)
    else 0x1_0000 * ShortAt(data, at, order) + ShortAt(data, at + 2, order)
  }

  datatype Header = NoHeader | Header(order: Order, first: nat)

  function ReadHeader(data: Text): Header {
    if |data| < 8 then NoHeader
    else
      var order := if data[..2] == [0x49, 0x49] then Little else Big;
      if data[..2] != [0x49, 0x49] && data[..2] != [0x4D, 0x4D] then NoHeader
      else if ShortAt(data, 2, order) != 42 then NoHeader
      else Header(order, Long(data, 4, order))
  }

  const MAX_PAGES := 10_000

  /** Where a directory says the next one is; 0 after the last, and where the file ends too soon to say. */
  function Next(data: Text, order: Order, directory: nat): nat
    requires directory + 2 <= |data|
  {
    var at := directory + 2 + 12 * ShortAt(data, directory, order);
    if at + 4 > |data| then 0 else Long(data, at, order)
  }

  /** A directory the file holds. */
  predicate Held(data: Text, directory: nat) { directory != 0 && directory + 2 <= |data| }

  /** Directories, each where the one before says, and none twice. */
  predicate Chain(data: Text, order: Order, directories: seq<nat>) {
    && (forall i :: 0 <= i < |directories| ==> Held(data, directories[i]))
    && (forall i :: 0 < i < |directories| ==> directories[i] == Next(data, order, directories[i - 1]))
    && (forall i, j :: 0 <= i < j < |directories| ==> directories[i] != directories[j])
  }

  /** The chain leads nowhere new: off the file, or back to a directory it has been to. */
  predicate Ends(data: Text, order: Order, directories: seq<nat>)
    requires directories != [] && Held(data, directories[|directories| - 1])
  {
    var next := Next(data, order, directories[|directories| - 1]);
    !Held(data, next) || next in directories
  }

  /** The chain a file's header starts, as long as it goes or as is followed. */
  predicate Followed(data: Text, header: Header, directories: seq<nat>)
    requires header.Header?
  {
    if !Held(data, header.first) then directories == []
    else
      && directories != [] && directories[0] == header.first && Chain(data, header.order, directories)
      && (|directories| == 10_000 || (|directories| < 10_000 && Ends(data, header.order, directories)))
  }

  /** Counts the pages of any bytes whatever, reading only inside them and no directory twice. */
  method TiffPages(data: Text) returns (pages: nat, ghost chain: seq<nat>)
    ensures ReadHeader(data).NoHeader? ==> pages == 0
    ensures ReadHeader(data).Header? ==> Followed(data, ReadHeader(data), chain) && pages == |chain|
  {
    var header := ReadHeader(data);
    if header.NoHeader? {
      return 0, [];
    }
    var directory := header.first;
    var visited: set<nat> := {};
    pages, chain := 0, [];
    while directory != 0 && pages < MAX_PAGES && directory !in visited && directory + 2 <= |data|
      invariant pages == |chain| <= MAX_PAGES
      invariant Chain(data, header.order, chain)
      invariant forall d :: d in visited <==> d in chain
      invariant chain == [] ==> directory == header.first
      invariant chain != [] ==> chain[0] == header.first && directory == Next(data, header.order, chain[|chain| - 1])
      decreases MAX_PAGES - pages
    {
      visited := visited + {directory};
      pages := pages + 1;
      ChainGrows(data, header.order, chain, directory);
      chain := chain + [directory];
      var next := directory + 2 + 12 * ShortAt(data, directory, header.order);
      if next + 4 > |data| {
        break;
      }
      directory := Long(data, next, header.order);
    }
  }

  lemma ChainGrows(data: Text, order: Order, chain: seq<nat>, directory: nat)
    requires Chain(data, order, chain) && Held(data, directory) && directory !in chain
    requires chain != [] ==> directory == Next(data, order, chain[|chain| - 1])
    ensures Chain(data, order, chain + [directory])
  {
  }

  /** There is one chain to follow, so the pages of a file are the directories of its chain. */
  lemma {:induction false} OneChain(data: Text, header: Header, a: seq<nat>, b: seq<nat>)
    requires header.Header? && Followed(data, header, a) && Followed(data, header, b)
    ensures a == b
  {
    if Held(data, header.first) {
      var n := if |a| < |b| then |a| else |b|;
      SameStart(data, header, a, b, n);
      NoLonger(data, header, a, b);
      NoLonger(data, header, b, a);
    }
  }

  lemma {:induction false} SameStart(data: Text, header: Header, a: seq<nat>, b: seq<nat>, n: nat)
    requires header.Header? && Held(data, header.first) && Followed(data, header, a) && Followed(data, header, b)
    requires n <= |a| && n <= |b|
    ensures a[..n] == b[..n]
  {
    if n > 0 {
      SameStart(data, header, a, b, n - 1);
      assert n > 1 ==> a[..n - 1][n - 2] == b[..n - 1][n - 2];
      assert a[..n] == a[..n - 1] + [a[n - 1]] && b[..n] == b[..n - 1] + [b[n - 1]];
    }
  }

  /** A chain that ends is no shorter than another that goes the same way. */
  lemma NoLonger(data: Text, header: Header, a: seq<nat>, b: seq<nat>)
    requires header.Header? && Held(data, header.first) && Followed(data, header, a) && Followed(data, header, b)
    requires var n := if |a| < |b| then |a| else |b|; a[..n] == b[..n]
    ensures |b| <= |a|
  {
    NextIsNew(data, header.order, b, |a|);
    var n := if |a| < |b| then |a| else |b|;
    assert a[..n] == b[..n] && (n == |a| ==> a[..n] == a);
  }

  /** Each directory of a chain leads on to a new one, up to the last. */
  lemma NextIsNew(data: Text, order: Order, chain: seq<nat>, k: nat)
    requires Chain(data, order, chain) && k > 0
    ensures k < |chain| ==> !Ends(data, order, chain[..k])
  {
    if k < |chain| {
      assert Next(data, order, chain[..k][k - 1]) == chain[k];
    }
  }

  // ----- The bytes

  /** Four bytes as a number, the least significant first. */
  function Four(a: byte, b: byte, c: byte, d: byte): nat {
    a as nat + 0x100 * b as nat + 0x1_0000 * c as nat + 0x100_0000 * d as nat
  }

  /** A file begins with II or MM, for its byte order, and 42; the first directory's place follows. */
  lemma HeaderIs(data: Text)
    ensures |data| >= 8 && data[0] == 0x49 && data[1] == 0x49 && data[2] == 42 && data[3] == 0 ==>
      ReadHeader(data) == Header(Little, Four(data[4], data[5], data[6], data[7]))
    ensures |data| >= 8 && data[0] == 0x4D && data[1] == 0x4D && data[2] == 0 && data[3] == 42 ==>
      ReadHeader(data) == Header(Big, Four(data[7], data[6], data[5], data[4]))
    ensures ReadHeader(data).Header? ==>
      |data| >= 8 && data[..4] in [[0x49, 0x49, 42, 0], [0x4D, 0x4D, 0, 42]]
  {
    if |data| >= 8 {
      assert data[..2] == [data[0], data[1]] && data[..4] == [data[0], data[1], data[2], data[3]];
    }
  }

  /** A directory is its number of entries, twelve bytes each, and the place of the next one. */
  lemma NextIs(data: Text, directory: nat, entries: nat)
    requires directory + 2 + 12 * entries + 4 <= |data|
    ensures var at := directory + 2 + 12 * entries;
      && (data[directory] as nat + 0x100 * data[directory + 1] as nat == entries ==>
            Next(data, Little, directory) == Four(data[at], data[at + 1], data[at + 2], data[at + 3]))
      && (0x100 * data[directory] as nat + data[directory + 1] as nat == entries ==>
            Next(data, Big, directory) == Four(data[at + 3], data[at + 2], data[at + 1], data[at]))
  {
  }
}
