/** Which address a request is attributed to: the trusted-proxy list and the right-to-left
    walk of the X-Forwarded-For chain. */
module ClientAddress {
  import opened Options
  import opened NetAddresses

  /** The library calls the code makes: address and prefix parsing, host:port splitting and
      address printing. */
  datatype Library = Library(
    parseAddr: string -> Option<Addr>,
    parsePrefix: string -> Option<Prefix>,
    splitHost: string -> Option<string>,
    show: Addr -> string)

  /** What they promise: well-formed results, and a printed address parses back to itself. */
  ghost predicate Lawful(lib: Library) {
    && (forall s :: lib.parseAddr(s).Some? ==> ValidAddr(lib.parseAddr(s).value))
    && (forall s :: lib.parsePrefix(s).Some? ==> ValidPrefix(lib.parsePrefix(s).value))
    && (forall a :: ValidAddr(a) ==> lib.parseAddr(lib.show(a)) == Some(a))
  }

  // ----- text ----------------------------------------------------------------------------------

  /** The pieces between commas; the empty text is one empty piece. */
  function Split(s: string): (r: seq<string>)
    ensures |r| >= 1
  {
    if s == "" then [""]
    else if s[0] == ',' then [""] + Split(s[1..])
    else
      var rest := Split(s[1..]);
      [[s[0]] + rest[0]] + rest[1..]
  }

  function Join(lines: seq<string>): string {
    if lines == [] then "" else if |lines| == 1 then lines[0] else lines[0] + "," + Join(lines[1..])
  }

  predicate IsSpace(c: char) {
    || '\t' <= c <= '\r' || c == ' ' || c == '\U{0085}' || c == '\U{00A0}' || c == '\U{1680}'
    || '\U{2000}' <= c <= '\U{200a}' || c == '\U{2028}' || c == '\U{2029}' || c == '\U{202f}'
    || c == '\U{205f}' || c == '\U{3000}'
  }

  /** The code points Unicode gives the property White_Space. */
  predicate White(c: char) {
    c as int in {0x9, 0xA, 0xB, 0xC, 0xD, 0x20, 0x85, 0xA0, 0x1680, 0x2000, 0x2001, 0x2002, 0x2003, 0x2004, 0x2005,
                 0x2006, 0x2007, 0x2008, 0x2009, 0x200A, 0x2028, 0x2029, 0x202F, 0x205F, 0x3000}
  }

  lemma SpaceIsWhite(c: char)
    ensures IsSpace(c) <==> White(c)
  {
  }

  function TrimSpace(s: string): string {
    if s != "" && IsSpace(s[0]) then TrimSpace(s[1..])
    else if s != "" && IsSpace(s[|s| - 1]) then TrimSpace(s[..|s| - 1])
    else s
  }

  function TrimBrackets(s: string): string {
    if s != "" && s[0] in {'[', ']'} then TrimBrackets(s[1..])
    else if s != "" && s[|s| - 1] in {'[', ']'} then TrimBrackets(s[..|s| - 1])
    else s
  }

  lemma SplitHead(s: string)
    requires s != ""
    ensures Split(s) == var rest := Split(s[1..]); if s[0] == ',' then [""] + rest else [[s[0]] + rest[0]] + rest[1..]
  {
  }

  lemma {:induction false} SplitConcat(a: string, b: string)
    ensures Split(a + "," + b) == Split(a) + Split(b)
  {
    hide Split;
    var s := a + "," + b;
    SplitHead(s);
    if a == "" {
      SplitEmpty();
      assert s[1..] == b;
    } else {
      assert s[0] == a[0] && s[1..] == a[1..] + "," + b;
      SplitConcat(a[1..], b);
      SplitHead(a);
      Regroup(if a[0] == ',' then "" else [a[0]], Split(a[1..]), Split(b));
    }
  }

  lemma SplitEmpty()
    ensures Split("") == [""]
  {
  }

  lemma Regroup(c: string, rest: seq<string>, more: seq<string>)
    requires |rest| >= 1
    ensures [""] + (rest + more) == [""] + rest + more
    ensures [c + (rest + more)[0]] + (rest + more)[1..] == [c + rest[0]] + rest[1..] + more
  {
    assert (rest + more)[1..] == rest[1..] + more;
  }

  /** Splitting loses nothing: joined again the pieces are the text, and none holds a comma. */
  lemma {:induction false} SplitRoundTrip(s: string)
    ensures Join(Split(s)) == s
    ensures forall i :: 0 <= i < |Split(s)| ==> ',' !in Split(s)[i]
  {
    if s == "" {
    } else {
      SplitRoundTrip(s[1..]);
      var rest := Split(s[1..]);
      assert s == [s[0]] + s[1..];
      if s[0] == ',' {
        assert ([""] + rest)[1..] == rest;
      } else {
        JoinGrows(s[0], rest);
      }
    }
  }

  lemma {:induction false} JoinStep(lines: seq<string>)
    requires lines != []
    ensures Join(lines) == lines[0] + (if |lines| == 1 then "" else "," + Join(lines[1..]))
  {
    if |lines| > 1 {
      assert lines[0] + "," + Join(lines[1..]) == lines[0] + ("," + Join(lines[1..]));
    }
  }

  lemma {:induction false} JoinGrows(c: char, rest: seq<string>)
    requires |rest| >= 1
    ensures Join([[c] + rest[0]] + rest[1..]) == [c] + Join(rest)
  {
    hide Join;
    var more := [[c] + rest[0]] + rest[1..];
    JoinStep(more);
    JoinStep(rest);
    assert more[1..] == rest[1..];
    var tail := if |rest| == 1 then "" else "," + Join(rest[1..]);
    assert ([c] + rest[0]) + tail == [c] + (rest[0] + tail);
  }

  ghost predicate Blanks(s: string) {
    forall i :: 0 <= i < |s| ==> White(s[i])
  }

  /** Trimming takes all the white space around a text and nothing else. */
  lemma {:induction false} TrimSpaceMeaning(s: string) returns (left: string, right: string)
    ensures s == left + TrimSpace(s) + right && Blanks(left) && Blanks(right)
    ensures TrimSpace(s) != "" ==> !White(TrimSpace(s)[0]) && !White(TrimSpace(s)[|TrimSpace(s)| - 1])
  {
    hide IsSpace, White;
    if s != "" {
      SpaceIsWhite(s[0]);
      SpaceIsWhite(s[|s| - 1]);
    }
    if s != "" && IsSpace(s[0]) {
      var l, r := TrimSpaceMeaning(s[1..]);
      left, right := [s[0]] + l, r;
      Prepend(s, l, TrimSpace(s[1..]), r);
    } else if s != "" && IsSpace(s[|s| - 1]) {
      var l, r := TrimSpaceMeaning(s[..|s| - 1]);
      left, right := l, r + [s[|s| - 1]];
      Append(s, l, TrimSpace(s[..|s| - 1]), r);
    } else {
      left, right := "", "";
    }
  }

  lemma Prepend(s: string, l: string, t: string, r: string)
    requires s != "" && s[1..] == l + t + r
    ensures s == [s[0]] + l + t + r
  {
    assert s == [s[0]] + s[1..];
  }

  lemma Append(s: string, l: string, t: string, r: string)
    requires s != "" && s[..|s| - 1] == l + t + r
    ensures s == l + t + (r + [s[|s| - 1]])
  {
    assert s == s[..|s| - 1] + [s[|s| - 1]];
  }

  function Pieces(lines: seq<string>): seq<string> {
    if lines == [] then [] else Split(lines[0]) + Pieces(lines[1..])
  }

  /** Joining the header lines and splitting again yields the entries of every line, in order. */
  lemma {:induction false} EveryLineIsWalked(lines: seq<string>)
    requires lines != []
    ensures Split(Join(lines)) == Pieces(lines)
  {
    if |lines| > 1 {
      EveryLineIsWalked(lines[1..]);
      SplitConcat(lines[0], Join(lines[1..]));
    } else {
      assert Pieces(lines[1..]) == [];
    }
  }

  // ----- the trusted list ------------------------------------------------------------------------

  ghost predicate AllValid(trusted: seq<Prefix>) {
    forall i :: 0 <= i < |trusted| ==> ValidPrefix(trusted[i])
  }

  ghost predicate Trusted(a: Addr, trusted: seq<Prefix>)
    requires AllValid(trusted)
  {
    exists i :: 0 <= i < |trusted| && Contains(trusted[i], a)
  }

  method IsTrusted(a: Addr, trusted: seq<Prefix>) returns (r: bool)
    requires AllValid(trusted)
    ensures r == Trusted(a, trusted)
  {
    for i := 0 to |trusted|
      invariant forall j :: 0 <= j < i ==> !Contains(trusted[j], a)
    {
      if Contains(trusted[i], a) {
        return true;
      }
    }
    r := false;
  }

  datatype Field = Skipped | Refused | Block(prefix: Prefix)

  /** One entry of the configured list, already trimmed. */
  function ReadField(lib: Library, field: string): Field
    requires forall s :: lib.parsePrefix(s).Some? ==> ValidPrefix(lib.parsePrefix(s).value)
    requires forall s :: lib.parseAddr(s).Some? ==> ValidAddr(lib.parseAddr(s).value)
  {
    if field == "" then Skipped
    else if '/' in field then
      match lib.parsePrefix(field)
      case None => Refused
      case Some(p) =>
        UnmapIsValid(p);
        var masked := Masked(UnmapPrefix(p));
        if masked.len == 0 then Refused else Block(masked)
    else
      match lib.parseAddr(field)
      case None => Refused
      case Some(a) => Block(Single(Unmap(a)))
  }

  /** What entry `i` of the configured list comes to. */
  function FieldAt(lib: Library, raw: string, i: nat): Field
    requires i < |Split(raw)|
    requires forall s :: lib.parsePrefix(s).Some? ==> ValidPrefix(lib.parsePrefix(s).value)
    requires forall s :: lib.parseAddr(s).Some? ==> ValidAddr(lib.parseAddr(s).value)
  {
    ReadField(lib, TrimSpace(Split(raw)[i]))
  }

  lemma UnmapIsValid(p: Prefix)
    requires ValidPrefix(p)
    ensures ValidPrefix(UnmapPrefix(p))
  {
  }

  /** What one entry of the list means for an address: the block it names, read at the width
      it was written in, or the one address it names. */
  ghost predicate Means(lib: Library, field: string, a: Addr)
    requires Lawful(lib)
  {
    if field == "" then false
    else if '/' in field then
      && lib.parsePrefix(field).Some?
      && var p := lib.parsePrefix(field).value;
         if Is4In6(p.addr) && p.len >= 96 then a.V4? && Contains(p, Mapped(a)) else Contains(p, a)
    else
      && lib.parseAddr(field).Some?
      && var b := Unmap(lib.parseAddr(field).value);
         a.V4? == b.V4? && a.bits == b.bits && (a.V6? ==> a.zone == "")
  }

  ghost predicate MeansAt(lib: Library, raw: string, i: nat, a: Addr)
    requires Lawful(lib) && i < |Split(raw)|
  {
    Means(lib, TrimSpace(Split(raw)[i]), a)
  }

  /** The entry means every address of one family. */
  ghost predicate MeansAll(lib: Library, field: string, v4: bool)
    requires Lawful(lib)
  {
    forall a :: ValidAddr(a) && a.V4? == v4 && (a.V6? ==> a.zone == "") ==> Means(lib, field, a)
  }

  predicate Parses(lib: Library, field: string) {
    if '/' in field then lib.parsePrefix(field).Some? else lib.parseAddr(field).Some?
  }

  /** What the program must not start with: an entry that is not blank, and either is no address or
      block or would trust every address of a family. */
  ghost predicate Unacceptable(lib: Library, field: string)
    requires Lawful(lib)
  {
    field != "" && (!Parses(lib, field) || MeansAll(lib, field, true) || MeansAll(lib, field, false))
  }

  /** The block an entry that parses comes to, before it is looked at. */
  function BlockOf(lib: Library, field: string): Prefix
    requires Parses(lib, field)
  {
    if '/' in field then
      var p := UnmapPrefix(lib.parsePrefix(field).value);
      if ValidPrefix(p) then Masked(p) else p
    else Single(Unmap(lib.parseAddr(field).value))
  }

  lemma BlockMeaning(lib: Library, field: string, a: Addr)
    requires Lawful(lib) && field != "" && Parses(lib, field) && ValidAddr(a)
    ensures ValidPrefix(BlockOf(lib, field)) && (Contains(BlockOf(lib, field), a) <==> Means(lib, field, a))
  {
    hide Pow2;
    if '/' in field {
      var p := lib.parsePrefix(field).value;
      UnmapIsValid(p);
      MaskingPreservesSet(UnmapPrefix(p), a);
      if Is4In6(p.addr) && p.len >= 96 && a.V4? {
        UnmapPreservesMeaning(p, a);
      }
    } else {
      UnmapMeaning(lib.parseAddr(field).value);
      SingleMeaning(Unmap(lib.parseAddr(field).value), a);
    }
  }

  /** An entry is refused exactly when it is unacceptable. */
  lemma RefusedIffUnacceptable(lib: Library, field: string)
    requires Lawful(lib)
    ensures ReadField(lib, field).Refused? <==> Unacceptable(lib, field)
  {
    if field != "" && Parses(lib, field) {
      Pow2Positive(BITS4);
      BlockMeaning(lib, field, Zero(true));
      var p := BlockOf(lib, field);
      CoversIffNoBits(p, true);
      CoversIffNoBits(p, false);
      AllIffCovers(lib, field, true);
      AllIffCovers(lib, field, false);
      BlockIsRead(lib, field);
    }
    hide ReadField, BlockOf, Means, MeansAll, Covers, Pow2;
    NotParsed(lib, field);
  }

  lemma NotParsed(lib: Library, field: string)
    requires Lawful(lib)
    ensures field == "" ==> ReadField(lib, field).Skipped?
    ensures field != "" && !Parses(lib, field) ==> ReadField(lib, field).Refused?
  {
  }

  lemma BlockIsRead(lib: Library, field: string)
    requires Lawful(lib) && field != "" && Parses(lib, field) && ValidPrefix(BlockOf(lib, field))
    ensures ReadField(lib, field).Refused? <==> BlockOf(lib, field).len == 0
  {
    if '/' in field {
      UnmapIsValid(lib.parsePrefix(field).value);
    }
  }

  lemma AllIffCovers(lib: Library, field: string, v4: bool)
    requires Lawful(lib) && field != "" && Parses(lib, field) && ValidPrefix(BlockOf(lib, field))
    ensures MeansAll(lib, field, v4) <==> Covers(BlockOf(lib, field), v4)
  {
    hide Means, Contains, BlockOf, ValidPrefix, Pow2;
    forall a | ValidAddr(a)
      ensures Contains(BlockOf(lib, field), a) <==> Means(lib, field, a)
    {
      BlockMeaning(lib, field, a);
    }
  }

  /** The blocks of the first `n` entries, in the order they are written, blank entries left out. */
  ghost function Blocks(lib: Library, raw: string, n: nat): seq<Prefix>
    requires Lawful(lib) && n <= |Split(raw)|
  {
    if n == 0 then []
    else
      var f := FieldAt(lib, raw, n - 1);
      Blocks(lib, raw, n - 1) + (if f.Block? then [f.prefix] else [])
  }

  lemma {:induction false} BlocksAreEntries(lib: Library, raw: string, n: nat, p: Prefix)
    requires Lawful(lib) && n <= |Split(raw)|
    ensures p in Blocks(lib, raw, n) <==> exists i :: 0 <= i < n && FieldAt(lib, raw, i) == Block(p)
  {
    hide ReadField, TrimSpace, FieldAt;
    if n > 0 {
      BlocksAreEntries(lib, raw, n - 1, p);
    }
  }

  /** ParseTrustedProxies: none when some entry is refused, else one block for each entry, in
      order. */
  method ParseTrustedProxies(raw: string, lib: Library) returns (out: Option<seq<Prefix>>)
    requires Lawful(lib)
    ensures out.Some? <==> forall i :: 0 <= i < |Split(raw)| ==> !Unacceptable(lib, TrimSpace(Split(raw)[i]))
    ensures out.Some? ==> out.value == Blocks(lib, raw, |Split(raw)|) && Accepted(lib, raw, out.value)
  {
    hide ReadField, TrimSpace, Unacceptable;
    var fields := Split(raw);
    var list := [];
    for i := 0 to |fields|
      invariant forall j :: 0 <= j < i ==> !FieldAt(lib, raw, j).Refused? && !Unacceptable(lib, TrimSpace(fields[j]))
      invariant list == Blocks(lib, raw, i)
    {
      var field := TrimSpace(fields[i]);
      var f := ReadField(lib, field);
      assert f == FieldAt(lib, raw, i);
      RefusedIffUnacceptable(lib, field);
      match f
      case Skipped =>
      case Refused =>
        return None;
      case Block(p) =>
        list := list + [p];
    }
    out := Some(list);
    forall p
      ensures p in list <==> exists i :: 0 <= i < |fields| && FieldAt(lib, raw, i) == Block(p)
    {
      BlocksAreEntries(lib, raw, |fields|, p);
    }
  }

  /** The list `out` is what the entries of `raw` come to. */
  ghost predicate Accepted(lib: Library, raw: string, out: seq<Prefix>)
    requires Lawful(lib)
  {
    && (forall i :: 0 <= i < |Split(raw)| ==> !FieldAt(lib, raw, i).Refused?)
    && (forall p :: p in out <==> exists i :: 0 <= i < |Split(raw)| && FieldAt(lib, raw, i) == Block(p))
  }

  /** An accepted entry is a valid block of at least one bit, and holds exactly the addresses
      the entry means. */
  lemma FieldMeaning(lib: Library, field: string, a: Addr)
    requires Lawful(lib) && ValidAddr(a) && ReadField(lib, field).Block?
    ensures ValidPrefix(ReadField(lib, field).prefix) && ReadField(lib, field).prefix.len >= 1
    ensures Contains(ReadField(lib, field).prefix, a) <==> Means(lib, field, a)
  {
    hide Pow2;
    if '/' in field {
      var p := lib.parsePrefix(field).value;
      UnmapIsValid(p);
      MaskingPreservesSet(UnmapPrefix(p), a);
      if Is4In6(p.addr) && p.len >= 96 && a.V4? {
        UnmapPreservesMeaning(p, a);
      }
    } else {
      SingleMeaning(Unmap(lib.parseAddr(field).value), a);
    }
  }

  lemma SingleMeaning(b: Addr, a: Addr)
    requires ValidAddr(b)
    ensures ValidPrefix(Single(b)) && Single(b).len >= 1
    ensures Contains(Single(b), a) <==> a.V4? == b.V4? && a.bits == b.bits && (a.V6? ==> a.zone == "")
  {
    SingleIsExact(if b.V6? then V6(b.bits, "") else b, a);
  }

  /** For every accepted proxy list and every address: it is trusted exactly when some entry
      of the list means it, and no accepted block trusts a whole family. */
  lemma TrustedMeansListed(lib: Library, raw: string, out: seq<Prefix>, a: Addr)
    requires Lawful(lib) && ValidAddr(a) && Accepted(lib, raw, out)
    ensures AllValid(out) && forall p :: p in out ==> p.len >= 1
    ensures Trusted(a, out) <==> exists i :: 0 <= i < |Split(raw)| && MeansAt(lib, raw, i, a)
  {
    hide Contains, ReadField, Means, Split, TrimSpace;
    forall p | p in out
      ensures ValidPrefix(p) && p.len >= 1
    {
      var i :| 0 <= i < |Split(raw)| && FieldAt(lib, raw, i) == Block(p);
      FieldMeaning(lib, TrimSpace(Split(raw)[i]), a);
    }
    assert AllValid(out);
    if Trusted(a, out) {
      var k :| 0 <= k < |out| && Contains(out[k], a);
      assert out[k] in out;
      var i :| 0 <= i < |Split(raw)| && FieldAt(lib, raw, i) == Block(out[k]);
      FieldMeaning(lib, TrimSpace(Split(raw)[i]), a);
      assert MeansAt(lib, raw, i, a);
    }
    if i :| 0 <= i < |Split(raw)| && MeansAt(lib, raw, i, a) {
      assert !FieldAt(lib, raw, i).Refused?;
      MeansIsBlock(lib, TrimSpace(Split(raw)[i]), a);
      FieldMeaning(lib, TrimSpace(Split(raw)[i]), a);
      var p := FieldAt(lib, raw, i).prefix;
      assert p in out;
      var k :| 0 <= k < |out| && out[k] == p;
      assert Contains(out[k], a);
    }
  }

  lemma MeansIsBlock(lib: Library, field: string, a: Addr)
    requires Lawful(lib) && Means(lib, field, a) && !ReadField(lib, field).Refused?
    ensures ReadField(lib, field).Block?
  {
  }

  // ----- the walk --------------------------------------------------------------------------------

  /** parseForwardedEntry: a bare address, or the host of host:port. */
  function ForwardedEntry(lib: Library, part: string): Option<Addr> {
    var entry := TrimSpace(part);
    match lib.parseAddr(entry)
    case Some(a) => Some(Unmap(a))
    case None =>
      match lib.splitHost(entry)
      case None => None
      case Some(host) =>
        match lib.parseAddr(host)
        case None => None
        case Some(a) => Some(Unmap(a))
  }

  /** peerIP: the host half of the transport address, normalised. */
  function PeerIp(lib: Library, remote: string): string {
    var host := match lib.splitHost(remote) case Some(h) => h case None => TrimBrackets(remote);
    match lib.parseAddr(host)
    case Some(a) => lib.show(Unmap(a))
    case None => host
  }

  /** The entry is a hop we trust: the walk goes on past it. */
  ghost predicate Passes(lib: Library, trusted: seq<Prefix>, part: string)
    requires AllValid(trusted)
  {
    ForwardedEntry(lib, part).Some? && Trusted(ForwardedEntry(lib, part).value, trusted)
  }

  /** Entry `i` is the rightmost untrusted one: it parses, is not trusted, and everything to
      its right parses and is trusted. */
  ghost predicate Wins(lib: Library, trusted: seq<Prefix>, parts: seq<string>, i: nat)
    requires AllValid(trusted)
  {
    && i < |parts|
    && ForwardedEntry(lib, parts[i]).Some? && !Trusted(ForwardedEntry(lib, parts[i]).value, trusted)
    && forall j :: i < j < |parts| ==> Passes(lib, trusted, parts[j])
  }

  ghost predicate PeerTrusted(lib: Library, trusted: seq<Prefix>, peer: string)
    requires AllValid(trusted)
  {
    lib.parseAddr(peer).Some? && Trusted(lib.parseAddr(peer).value, trusted)
  }

  /** The address `r` is what a chain of entries and a peer are attributed to. */
  ghost predicate Attributed(lib: Library, trusted: seq<Prefix>, peer: string, parts: seq<string>, r: string)
    requires AllValid(trusted)
  {
    if PeerTrusted(lib, trusted, peer) && exists i: nat :: Wins(lib, trusted, parts, i) then
      exists i: nat :: Wins(lib, trusted, parts, i) && r == lib.show(ForwardedEntry(lib, parts[i]).value)
    else r == peer
  }

  /** ClientIP returns the rightmost untrusted entry exactly when the peer is trusted and every
      entry to its right parses and is trusted; otherwise the peer. */
  method ClientIp(remote: string, lines: seq<string>, trusted: seq<Prefix>, lib: Library) returns (r: string)
    requires AllValid(trusted)
    ensures Attributed(lib, trusted, PeerIp(lib, remote), Split(Join(lines)), r)
  {
    hide ForwardedEntry, Trusted, PeerIp, Split, Join;
    var peer := PeerIp(lib, remote);
    var peerAddr := lib.parseAddr(peer);
    if peerAddr.None? {
      return peer;
    }
    var ok := IsTrusted(peerAddr.value, trusted);
    if !ok {
      return peer;
    }
    var parts := Split(Join(lines));
    var i := |parts|;
    while i > 0
      invariant 0 <= i <= |parts|
      invariant forall j :: i <= j < |parts| ==> Passes(lib, trusted, parts[j])
    {
      i := i - 1;
      var entry := ForwardedEntry(lib, parts[i]);
      if entry.None? {
        assert !Passes(lib, trusted, parts[i]);
        assert forall k: nat :: k < |parts| ==> !Wins(lib, trusted, parts, k);
        return peer;
      }
      ok := IsTrusted(entry.value, trusted);
      if !ok {
        assert Wins(lib, trusted, parts, i);
        return lib.show(entry.value);
      }
      assert Passes(lib, trusted, parts[i]);
    }
    assert forall k: nat :: k < |parts| ==> !Wins(lib, trusted, parts, k);
    r := peer;
  }

  lemma OneWinner(lib: Library, trusted: seq<Prefix>, parts: seq<string>, i: nat, j: nat)
    requires AllValid(trusted) && Wins(lib, trusted, parts, i) && Wins(lib, trusted, parts, j)
    ensures i == j
  {
  }

  lemma AttributionIsUnique(lib: Library, trusted: seq<Prefix>, peer: string, parts: seq<string>, r: string, r': string)
    requires AllValid(trusted) && Attributed(lib, trusted, peer, parts, r) && Attributed(lib, trusted, peer, parts, r')
    ensures r == r'
  {
    hide ForwardedEntry, Trusted, PeerTrusted;
    if PeerTrusted(lib, trusted, peer) && exists i: nat :: Wins(lib, trusted, parts, i) {
      var i: nat :| Wins(lib, trusted, parts, i) && r == lib.show(ForwardedEntry(lib, parts[i]).value);
      var j: nat :| Wins(lib, trusted, parts, j) && r' == lib.show(ForwardedEntry(lib, parts[j]).value);
      OneWinner(lib, trusted, parts, i, j);
    }
  }

  /** A winner stays the winner under any entries put to its left. */
  lemma WinnerIgnoresLeft(lib: Library, trusted: seq<Prefix>, left: seq<string>, parts: seq<string>, i: nat)
    requires AllValid(trusted) && Wins(lib, trusted, parts, i)
    ensures Wins(lib, trusted, left + parts, |left| + i)
  {
    var all := left + parts;
    assert all[|left| + i] == parts[i];
    forall j | |left| + i < j < |all|
      ensures Passes(lib, trusted, all[j])
    {
      assert all[j] == parts[j - |left|];
    }
  }

  /** No byte to the left of the entry that wins can change the attribution, whatever the
      caller writes there and however many entries it makes of it. */
  lemma ForgedChainIsIgnored(lib: Library, trusted: seq<Prefix>, peer: string,
                             forged: string, chain: string, i: nat, r: string, r': string)
    requires AllValid(trusted) && Wins(lib, trusted, Split(chain), i)
    requires Attributed(lib, trusted, peer, Split(chain), r)
    requires Attributed(lib, trusted, peer, Split(forged + "," + chain), r')
    ensures r' == r
  {
    SplitConcat(forged, chain);
    hide Split, ForwardedEntry;
    var parts, left := Split(chain), Split(forged);
    WinnerIgnoresLeft(lib, trusted, left, parts, i);
    if PeerTrusted(lib, trusted, peer) {
      var j: nat :| Wins(lib, trusted, left + parts, j) && r' == lib.show(ForwardedEntry(lib, (left + parts)[j]).value);
      OneWinner(lib, trusted, left + parts, |left| + i, j);
    }
    assert Attributed(lib, trusted, peer, parts, r');
    AttributionIsUnique(lib, trusted, peer, parts, r, r');
  }

  /** An attribution that is not the peer is an untrusted address: no trusted proxy is ever
      taken for a client. */
  lemma ForwardedResultIsUntrusted(lib: Library, trusted: seq<Prefix>, peer: string, parts: seq<string>, r: string)
    requires Lawful(lib) && AllValid(trusted) && Attributed(lib, trusted, peer, parts, r) && r != peer
    ensures PeerTrusted(lib, trusted, peer)
    ensures lib.parseAddr(r).Some? && !Trusted(lib.parseAddr(r).value, trusted)
  {
    hide Pow2;
    var i: nat :| Wins(lib, trusted, parts, i) && r == lib.show(ForwardedEntry(lib, parts[i]).value);
    assert ValidAddr(ForwardedEntry(lib, parts[i]).value);
  }

  // ----- what peers and entries are read as ----------------------------------------------------

  ghost predicate Brackets(s: string) {
    forall i :: 0 <= i < |s| ==> s[i] == '[' || s[i] == ']'
  }

  /** Taking the brackets off takes all of them around the text and nothing else. */
  lemma {:induction false} TrimBracketsMeaning(s: string) returns (left: string, right: string)
    ensures s == left + TrimBrackets(s) + right && Brackets(left) && Brackets(right)
    ensures TrimBrackets(s) != "" ==>
              && !Brackets([TrimBrackets(s)[0]])
              && !Brackets([TrimBrackets(s)[|TrimBrackets(s)| - 1]])
  {
    if s != "" && s[0] in {'[', ']'} {
      var l, r := TrimBracketsMeaning(s[1..]);
      left, right := [s[0]] + l, r;
      Prepend(s, l, TrimBrackets(s[1..]), r);
    } else if s != "" && s[|s| - 1] in {'[', ']'} {
      var l, r := TrimBracketsMeaning(s[..|s| - 1]);
      left, right := l, r + [s[|s| - 1]];
      Append(s, l, TrimBrackets(s[..|s| - 1]), r);
    } else {
      left, right := "", "";
      if s != "" {
        assert [s[0]][0] == s[0] && [s[|s| - 1]][0] == s[|s| - 1];
      }
    }
  }

  /** The host of a transport address: what stands before the port, or, without a port, the text
      with its brackets off. */
  predicate HostOf(lib: Library, remote: string, host: string) {
    lib.splitHost(remote) == Some(host) || (lib.splitHost(remote).None? && host == TrimBrackets(remote))
  }

  /** The peer of a request, IPv4 or IPv6: the address the host parses to, IPv4 addresses in their
      own form; a host that does not parse is returned as it is. */
  lemma PeerMeaning(lib: Library, remote: string, host: string)
    requires Lawful(lib) && HostOf(lib, remote, host)
    ensures lib.parseAddr(host).Some? ==> lib.parseAddr(PeerIp(lib, remote)) == Some(Unmap(lib.parseAddr(host).value))
    ensures lib.parseAddr(host).None? ==> PeerIp(lib, remote) == host
  {
    if lib.parseAddr(host).Some? {
      UnmapMeaning(lib.parseAddr(host).value);
    }
    hide Pow2, TrimBrackets;
  }

  /** The client an entry of the chain names: the address it is, or, when it is none, the address
      before its port, IPv4 addresses in their own form. */
  lemma EntryMeaning(lib: Library, part: string, a: Addr)
    ensures ForwardedEntry(lib, part) == Some(a) <==>
            exists b :: Unmap(b) == a &&
              (|| lib.parseAddr(TrimSpace(part)) == Some(b)
               || (&& lib.parseAddr(TrimSpace(part)).None? && lib.splitHost(TrimSpace(part)).Some?
                   && lib.parseAddr(lib.splitHost(TrimSpace(part)).value) == Some(b)))
  {
    hide TrimSpace;
  }

  // ----- one address, many spellings -----------------------------------------------------------

  /** The text is the address `a`, or its IPv4-mapped form. */
  predicate Spells(lib: Library, host: string, a: Addr) {
    lib.parseAddr(host).Some? && Unmap(lib.parseAddr(host).value) == a
  }

  /** The entry is the address `a`, alone or as host:port, an IPv4 one bare or IPv4-mapped. */
  ghost predicate EntrySpells(lib: Library, part: string, a: Addr) {
    || Spells(lib, TrimSpace(part), a)
    || (&& lib.parseAddr(TrimSpace(part)).None? && lib.splitHost(TrimSpace(part)).Some?
        && Spells(lib, lib.splitHost(TrimSpace(part)).value, a))
  }

  /** The transport reports the peer `a`, an IPv4 one plain or IPv4-mapped. */
  ghost predicate PeerSpells(lib: Library, remote: string, a: Addr) {
    exists host :: HostOf(lib, remote, host) && Spells(lib, host, a)
  }

  lemma EntryIsRead(lib: Library, part: string, a: Addr)
    requires EntrySpells(lib, part, a)
    ensures ForwardedEntry(lib, part) == Some(a)
  {
    hide Unmap, TrimSpace;
  }

  lemma PeerIsRead(lib: Library, remote: string, a: Addr)
    requires PeerSpells(lib, remote, a)
    ensures PeerIp(lib, remote) == lib.show(a)
  {
    hide Unmap, TrimBrackets;
  }

  /** The two chains have the same text, or spell the same address, entry by entry. */
  ghost predicate SameChain(lib: Library, parts: seq<string>, parts': seq<string>) {
    && |parts| == |parts'|
    && forall i :: 0 <= i < |parts| ==>
         parts[i] == parts'[i] || exists a :: EntrySpells(lib, parts[i], a) && EntrySpells(lib, parts'[i], a)
  }

  ghost predicate SamePeer(lib: Library, remote: string, remote': string) {
    remote == remote' || exists a :: PeerSpells(lib, remote, a) && PeerSpells(lib, remote', a)
  }

  /** How addresses are spelled does not matter: peers and entries that are one address, written
      bare, with brackets or with a port, IPv4 ones plain or IPv4-mapped, make one client. */
  lemma SpellingDoesNotMatter(lib: Library, trusted: seq<Prefix>, remote: string, remote': string,
                              parts: seq<string>, parts': seq<string>, r: string, r': string)
    requires AllValid(trusted) && SamePeer(lib, remote, remote') && SameChain(lib, parts, parts')
    requires Attributed(lib, trusted, PeerIp(lib, remote), parts, r)
    requires Attributed(lib, trusted, PeerIp(lib, remote'), parts', r')
    ensures r == r'
  {
    if remote != remote' {
      var a :| PeerSpells(lib, remote, a) && PeerSpells(lib, remote', a);
      PeerIsRead(lib, remote, a);
      PeerIsRead(lib, remote', a);
    }
    hide ForwardedEntry, PeerIp, EntrySpells, PeerSpells, Trusted;
    forall i | 0 <= i < |parts| ensures ForwardedEntry(lib, parts'[i]) == ForwardedEntry(lib, parts[i]) {
      if parts[i] != parts'[i] {
        var a :| EntrySpells(lib, parts[i], a) && EntrySpells(lib, parts'[i], a);
        EntryIsRead(lib, parts[i], a);
        EntryIsRead(lib, parts'[i], a);
      }
    }
    assert forall i: nat :: Wins(lib, trusted, parts', i) <==> Wins(lib, trusted, parts, i);
    assert Attributed(lib, trusted, PeerIp(lib, remote), parts, r');
    AttributionIsUnique(lib, trusted, PeerIp(lib, remote), parts, r, r');
  }
}
