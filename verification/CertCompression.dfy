/** Compression of certificate chains: certificates that the peer has are named, the others
    are deflated with a dictionary of certificates that both sides know. */
module CertCompression {
  import opened Frames
  import opened Options
  import opened Powers

  type Cert = seq<Byte>

  datatype Entry = Cached(hash: nat) | Common(set_: nat, index: nat) | Compressed

  datatype Error = BadHashes | EndOfData | UnexpectedCached | UnknownSet | NotInSet | UnknownType | BadStream | NoEntry

  datatype Result<T> = Ok(value: T) | Err(error: Error)

  /** What both sides are built with: the common certificate sets, the hash of a
      certificate, the fixed part of the dictionary, and zlib. The first argument of
      `deflate` and `inflate` is the dictionary. */
  datatype Env = Env(
    sets: map<nat, seq<Cert>>,
    hash: Cert -> nat,
    dict: seq<Byte>,
    deflate: (seq<Byte>, seq<Byte>) -> seq<Byte>,
    inflate: (seq<Byte>, seq<Byte>) -> Option<seq<Byte>>)

  const TWO_32: nat := 0x1_0000_0000
  const TWO_64: nat := 0x1_0000_0000_0000_0000

  /** Names of sets and positions in them fit their fields. */
  ghost predicate SetsFit(env: Env) {
    forall h | h in env.sets :: h < TWO_64 && |env.sets[h]| <= TWO_32
  }

  ghost predicate ZlibInverts(env: Env) {
    forall dict, plain :: env.inflate(dict, env.deflate(dict, plain)) == Some(plain)
  }

  ghost predicate EnvOk(env: Env) {
    SetsFit(env) && ZlibInverts(env)
  }

  // ---------------------------------------------------------------------------
  // Little-endian numbers
  // ---------------------------------------------------------------------------

  /** The lowest `k` bytes of `n`. */
  function LittleEndian(n: nat, k: nat): (r: seq<Byte>)
    ensures |r| == k
  {
    if k == 0 then [] else [n % 256] + LittleEndian(n / 256, k - 1)
  }

  function Value(bytes: seq<Byte>): nat {
    if bytes == [] then 0 else bytes[0] + 256 * Value(bytes[1..])
  }

  lemma {:induction false} ValueOfLittleEndian(n: nat, k: nat)
    requires n < Power256(k)
    ensures Value(LittleEndian(n, k)) == n
  {
    if k > 0 {
      ValueOfLittleEndian(n / 256, k - 1);
      assert LittleEndian(n, k)[1..] == LittleEndian(n / 256, k - 1);
    }
  }

  lemma ReadsBack(n: nat, k: nat)
    requires (k == 4 && n < TWO_32) || (k == 8 && n < TWO_64)
    ensures Value(LittleEndian(n, k)) == n
  {
    assert Power256(2) == 0x1_0000;
    assert Power256(4) == TWO_32;
    assert Power256(6) == 0x1_0000 * TWO_32;
    assert Power256(8) == TWO_64;
    ValueOfLittleEndian(n, k);
  }

  // ---------------------------------------------------------------------------
  // Compressing
  // ---------------------------------------------------------------------------

  function HashList(bytes: seq<Byte>): seq<nat> {
    if |bytes| < 8 then [] else [Value(bytes[..8])] + HashList(bytes[8..])
  }

  function SplitHashes(bytes: seq<Byte>): Result<seq<nat>> {
    if |bytes| % 8 != 0 then Err(BadHashes) else Ok(HashList(bytes))
  }

  /** The first place of `cert` in `certs`, from position `i` on. */
  function FindFrom(certs: seq<Cert>, cert: Cert, i: nat): (r: Option<nat>)
    requires i <= |certs|
    ensures r.Some? ==> i <= r.value < |certs| && certs[r.value] == cert
    decreases |certs| - i
  {
    if i == |certs| then None
    else if certs[i] == cert then Some(i)
    else FindFrom(certs, cert, i + 1)
  }

  /** The first of the sets `names` that is known and holds `cert`. */
  function FindCommon(env: Env, cert: Cert, names: seq<nat>): (r: Entry)
    ensures !r.Cached?
    ensures r.Common? ==> r.set_ in env.sets && r.index < |env.sets[r.set_]| && env.sets[r.set_][r.index] == cert
  {
    if names == [] then Compressed
    else
      var at := if names[0] in env.sets then FindFrom(env.sets[names[0]], cert, 0) else None;
      if at.Some? then Common(names[0], at.value) else FindCommon(env, cert, names[1..])
  }

  function EntryOf(env: Env, cert: Cert, cached: seq<nat>, names: seq<nat>): Entry {
    if env.hash(cert) in cached then Cached(env.hash(cert)) else FindCommon(env, cert, names)
  }

  function Entries(env: Env, chain: seq<Cert>, cached: seq<nat>, names: seq<nat>): (r: seq<Entry>)
    ensures |r| == |chain|
  {
    if chain == [] then []
    else [EntryOf(env, chain[0], cached, names)] + Entries(env, chain[1..], cached, names)
  }

  function EntryBytes(e: Entry): seq<Byte> {
    match e
    case Compressed => [1]
    case Cached(h) => [2] + LittleEndian(h, 8)
    case Common(h, i) => [3] + LittleEndian(h, 8) + LittleEndian(i, 4)
  }

  function ListBytes(es: seq<Entry>): seq<Byte> {
    if es == [] then [] else EntryBytes(es[0]) + ListBytes(es[1..])
  }

  /** The certificates that have to be sent, each behind its length. */
  function Plain(es: seq<Entry>, chain: seq<Cert>): seq<Byte>
    requires |es| == |chain|
  {
    if es == [] then []
    else (if es[0].Compressed? then LittleEndian(|chain[0]|, 4) + chain[0] else []) + Plain(es[1..], chain[1..])
  }

  /** The certificates that the peer has, last one first. */
  function Known(es: seq<Entry>, chain: seq<Cert>): seq<Byte>
    requires |es| == |chain|
  {
    if es == [] then []
    else Known(es[1..], chain[1..]) + if es[0].Compressed? then [] else chain[0]
  }

  function Dictionary(env: Env, es: seq<Entry>, chain: seq<Cert>): seq<Byte>
    requires |es| == |chain|
  {
    Known(es, chain) + env.dict
  }

  function Deflated(env: Env, es: seq<Entry>, chain: seq<Cert>): seq<Byte>
    requires |es| == |chain|
  {
    var plain := Plain(es, chain);
    if plain == [] then [] else LittleEndian(|plain|, 4) + env.deflate(Dictionary(env, es, chain), plain)
  }

  function CompressedChain(env: Env, chain: seq<Cert>, pCommonSetHashes: seq<Byte>, pCachedHashes: seq<Byte>)
    : Result<seq<Byte>>
  {
    var cached, names := SplitHashes(pCachedHashes), SplitHashes(pCommonSetHashes);
    if cached.Err? then Err(cached.error)
    else if names.Err? then Err(names.error)
    else
      var es := Entries(env, chain, cached.value, names.value);
      Ok(ListBytes(es) + [0] + Deflated(env, es, chain))
  }

  // ---------------------------------------------------------------------------
  // Decompressing
  // ---------------------------------------------------------------------------

  /** The entries at the start of `data`, the certificates they name and the bytes behind
      the list. The end of the data ends the list as well. */
  datatype List = List(entries: seq<Entry>, chain: seq<Cert>, rest: seq<Byte>)

  function OneMore(e: Entry, cert: Cert, r: Result<List>): Result<List> {
    if r.Err? then r else Ok(List([e] + r.value.entries, [cert] + r.value.chain, r.value.rest))
  }

  function Parsed(env: Env, data: seq<Byte>): (r: Result<List>)
    ensures r.Ok? ==> |r.value.entries| == |r.value.chain|
    decreases |data|
  {
    if data == [] then Ok(List([], [], []))
    else if data[0] == 0 then Ok(List([], [], data[1..]))
    else if data[0] == 1 then OneMore(Compressed, [], Parsed(env, data[1..]))
    else if data[0] == 2 then Err(UnexpectedCached)
    else if data[0] != 3 then Err(UnknownType)
    else if |data| < 13 then Err(EndOfData)
    else
      var h, i := Value(data[1..9]), Value(data[9..13]);
      if h !in env.sets then Err(UnknownSet)
      else if i >= |env.sets[h]| then Err(NotInSet)
      else OneMore(Common(h, i), env.sets[h][i], Parsed(env, data[13..]))
  }

  function After(certs: seq<Cert>, r: Result<seq<Cert>>): Result<seq<Cert>> {
    if r.Err? then r else Ok(certs + r.value)
  }

  /** Fills in certificates from `plain` until `target` bytes are used. The sum is kept in
      32 bits. */
  function Filled(es: seq<Entry>, chain: seq<Cert>, plain: seq<Byte>, total: nat, target: nat): Result<seq<Cert>>
    requires |es| == |chain|
    decreases |es|
  {
    if total >= target then Ok(chain)
    else if |plain| < 4 || |plain| - 4 < Value(plain[..4]) then Err(EndOfData)
    else if es == [] then Err(NoEntry)
    else if !es[0].Compressed? then After([chain[0]], Filled(es[1..], chain[1..], plain, total, target))
    else
      var n := Value(plain[..4]);
      After([plain[4..4 + n]], Filled(es[1..], chain[1..], plain[4 + n..], (total + 4 + n) % TWO_32, target))
  }

  function Inflated(env: Env, list: List): Result<seq<Cert>>
    requires |list.entries| == |list.chain|
  {
    if Compressed !in list.entries then Ok(list.chain)
    else if |list.rest| < 4 then Err(EndOfData)
    else
      var plain := env.inflate(Dictionary(env, list.entries, list.chain), list.rest[4..]);
      if plain.None? then Err(BadStream)
      else Filled(list.entries, list.chain, plain.value, 0, Value(list.rest[..4]))
  }

  function DecompressedChain(env: Env, data: seq<Byte>): Result<seq<Cert>> {
    var list := Parsed(env, data);
    if list.Err? then Err(list.error) else Inflated(env, list.value)
  }

  // ---------------------------------------------------------------------------
  // Round trip
  // ---------------------------------------------------------------------------

  /** The chain without the certificates that have to be sent. */
  function Blanked(es: seq<Entry>, chain: seq<Cert>): (r: seq<Cert>)
    requires |es| == |chain|
    ensures |r| == |chain|
  {
    if es == [] then []
    else [if es[0].Compressed? then [] else chain[0]] + Blanked(es[1..], chain[1..])
  }

  /** An entry names its certificate. */
  ghost predicate Names(env: Env, e: Entry, cert: Cert) {
    match e
    case Compressed => true
    case Cached(_) => true
    case Common(h, i) => h in env.sets && i < |env.sets[h]| && env.sets[h][i] == cert
  }

  ghost predicate AllNamed(env: Env, es: seq<Entry>, chain: seq<Cert>) {
    && |es| == |chain|
    && (es != [] ==> Names(env, es[0], chain[0]) && AllNamed(env, es[1..], chain[1..]))
  }

  /** The peer says that it has one of the certificates. */
  predicate AnyCached(env: Env, chain: seq<Cert>, cached: seq<nat>) {
    exists cert | cert in chain :: env.hash(cert) in cached
  }

  predicate HasCached(es: seq<Entry>) {
    es != [] && (es[0].Cached? || HasCached(es[1..]))
  }

  lemma {:induction false} EntriesAreNamed(env: Env, chain: seq<Cert>, cached: seq<nat>, names: seq<nat>)
    ensures AllNamed(env, Entries(env, chain, cached, names), chain)
    ensures HasCached(Entries(env, chain, cached, names)) <==> AnyCached(env, chain, cached)
  {
    if chain != [] {
      EntriesAreNamed(env, chain[1..], cached, names);
    }
  }

  lemma ParsedEntry(env: Env, e: Entry, cert: Cert, tail: seq<Byte>)
    requires SetsFit(env) && Names(env, e, cert)
    ensures Parsed(env, EntryBytes(e) + tail)
         == if e.Cached? then Err(UnexpectedCached)
            else OneMore(e, if e.Compressed? then [] else cert, Parsed(env, tail))
  {
    var data := EntryBytes(e) + tail;
    match e
    case Compressed =>
      assert data[1..] == tail;
    case Cached(h) =>
    case Common(h, i) =>
      ReadsBack(h, 8);
      ReadsBack(i, 4);
      assert data[1..9] == LittleEndian(h, 8);
      assert data[9..13] == LittleEndian(i, 4);
      assert data[13..] == tail;
  }

  /** What reading the list arrives at. */
  function ListRead(es: seq<Entry>, chain: seq<Cert>, rest: seq<Byte>): Result<List>
    requires |es| == |chain|
  {
    if HasCached(es) then Err(UnexpectedCached) else Ok(List(es, Blanked(es, chain), rest))
  }

  lemma ListReadOneMore(es: seq<Entry>, chain: seq<Cert>, rest: seq<Byte>)
    requires |es| == |chain| && es != []
    ensures ListRead(es, chain, rest)
         == if es[0].Cached? then Err(UnexpectedCached)
            else OneMore(es[0], if es[0].Compressed? then [] else chain[0], ListRead(es[1..], chain[1..], rest))
  {
    assert es == [es[0]] + es[1..];
  }

  /** The list of entries is read back, with the certificates that it names. */
  lemma {:induction false} ParsedList(env: Env, es: seq<Entry>, chain: seq<Cert>, rest: seq<Byte>)
    requires SetsFit(env) && AllNamed(env, es, chain)
    ensures Parsed(env, ListBytes(es) + ([0] + rest)) == ListRead(es, chain, rest)
  {
    var end := [0] + rest;
    if es == [] {
      assert ListBytes(es) + end == end;
      assert end[1..] == rest;
    } else {
      var tail := ListBytes(es[1..]) + end;
      ListReadOneMore(es, chain, rest);
      ParsedList(env, es[1..], chain[1..], rest);
      ParsedEntry(env, es[0], chain[0], tail);
      assert ListBytes(es) + end == EntryBytes(es[0]) + tail;
    }
  }

  /** Both sides build the same dictionary. */
  lemma {:induction false} SameDictionary(env: Env, es: seq<Entry>, chain: seq<Cert>)
    requires |es| == |chain|
    ensures Dictionary(env, es, Blanked(es, chain)) == Dictionary(env, es, chain)
  {
    if es != [] {
      SameDictionary(env, es[1..], chain[1..]);
      SamePrefix(Known(es[1..], Blanked(es[1..], chain[1..])), Known(es[1..], chain[1..]), env.dict);
      assert Blanked(es, chain)[1..] == Blanked(es[1..], chain[1..]);
    }
  }

  lemma SamePrefix(a: seq<Byte>, b: seq<Byte>, suffix: seq<Byte>)
    requires a + suffix == b + suffix
    ensures a == b
  {
    assert |a + suffix| == |b + suffix|;
    assert (a + suffix)[..|a|] == a && (b + suffix)[..|b|] == b;
  }

  lemma {:induction false} PlainOfBlanked(es: seq<Entry>, chain: seq<Cert>)
    requires |es| == |chain|
    ensures Compressed in es <==> Plain(es, chain) != []
    ensures Compressed !in es ==> Blanked(es, chain) == chain
  {
    if es != [] {
      PlainOfBlanked(es[1..], chain[1..]);
    }
  }

  lemma PlainOfCompressed(cert: Cert, tail: seq<Byte>, plain: seq<Byte>)
    requires plain == LittleEndian(|cert|, 4) + cert + tail && |cert| < TWO_32
    ensures Value(plain[..4]) == |cert| && plain[4..4 + |cert|] == cert && plain[4 + |cert|..] == tail
  {
    ReadsBack(|cert|, 4);
    assert plain[..4] == LittleEndian(|cert|, 4);
  }

  /** Filling in restores the chain. */
  lemma {:induction false} FilledRestores(es: seq<Entry>, chain: seq<Cert>, plain: seq<Byte>, total: nat, target: nat)
    requires |es| == |chain| && plain == Plain(es, chain)
    requires total + |plain| == target < TWO_32
    ensures Filled(es, Blanked(es, chain), plain, total, target) == Ok(chain)
    decreases es
  {
    PlainOfBlanked(es, chain);
    if plain != [] {
      assert Blanked(es, chain)[1..] == Blanked(es[1..], chain[1..]);
      assert chain == [chain[0]] + chain[1..];
      var tail := Plain(es[1..], chain[1..]);
      if es[0].Compressed? {
        PlainOfCompressed(chain[0], tail, plain);
        FilledRestores(es[1..], chain[1..], tail, total + 4 + |chain[0]|, target);
      } else {
        assert plain == tail;
        FilledRestores(es[1..], chain[1..], plain, total, target);
      }
    }
  }

  lemma InflatedRestores(env: Env, es: seq<Entry>, chain: seq<Cert>)
    requires ZlibInverts(env) && |es| == |chain| && |Plain(es, chain)| < TWO_32
    ensures Inflated(env, List(es, Blanked(es, chain), Deflated(env, es, chain))) == Ok(chain)
  {
    PlainOfBlanked(es, chain);
    if Compressed in es {
      var plain := Plain(es, chain);
      var rest := Deflated(env, es, chain);
      ReadsBack(|plain|, 4);
      assert rest[..4] == LittleEndian(|plain|, 4);
      assert rest[4..] == env.deflate(Dictionary(env, es, chain), plain);
      SameDictionary(env, es, chain);
      FilledRestores(es, chain, plain, 0, |plain|);
    }
  }

  lemma DecompressesTo(env: Env, es: seq<Entry>, chain: seq<Cert>, data: seq<Byte>)
    requires ZlibInverts(env) && AllNamed(env, es, chain) && |Plain(es, chain)| < TWO_32
    requires Parsed(env, data) == ListRead(es, chain, Deflated(env, es, chain))
    ensures DecompressedChain(env, data) == if HasCached(es) then Err(UnexpectedCached) else Ok(chain)
  {
    InflatedRestores(env, es, chain);
  }

  /** A chain can be restored exactly if none of its certificates was left out as cached. */
  lemma RoundTrip(env: Env, chain: seq<Cert>, pCommonSetHashes: seq<Byte>, pCachedHashes: seq<Byte>)
    requires EnvOk(env)
    requires |pCommonSetHashes| % 8 == 0 && |pCachedHashes| % 8 == 0
    requires |Plain(Entries(env, chain, HashList(pCachedHashes), HashList(pCommonSetHashes)), chain)| < TWO_32
    ensures
      var data := CompressedChain(env, chain, pCommonSetHashes, pCachedHashes);
      && data.Ok?
      && DecompressedChain(env, data.value)
         == if AnyCached(env, chain, HashList(pCachedHashes)) then Err(UnexpectedCached) else Ok(chain)
  {
    EntriesAreNamed(env, chain, HashList(pCachedHashes), HashList(pCommonSetHashes));
    var es := Entries(env, chain, HashList(pCachedHashes), HashList(pCommonSetHashes));
    var rest := Deflated(env, es, chain);
    ParsedList(env, es, chain, rest);
    assert ListBytes(es) + [0] + rest == ListBytes(es) + ([0] + rest);
    DecompressesTo(env, es, chain, ListBytes(es) + [0] + rest);
  }

  // ---------------------------------------------------------------------------
  // The program
  // ---------------------------------------------------------------------------

  method ReadHashes(hashes: seq<Byte>) returns (r: Result<seq<nat>>)
    ensures r == SplitHashes(hashes)
  {
    if |hashes| % 8 != 0 {
      return Err(BadHashes);
    }
    var res := [];
    for i := 0 to |hashes| / 8
      invariant HashList(hashes) == res + HashList(hashes[i * 8..])
    {
      assert hashes[i * 8..][..8] == hashes[i * 8..(i + 1) * 8];
      assert hashes[i * 8..][8..] == hashes[(i + 1) * 8..];
      res := res + [Value(hashes[i * 8..(i + 1) * 8])];
    }
    assert res + [] == res;
    return Ok(res);
  }

  /** Looks the certificate up in the sets, in the order of `names`. */
  method FindInSets(env: Env, cert: Cert, names: seq<nat>) returns (e: Entry)
    ensures e == FindCommon(env, cert, names)
  {
    for j := 0 to |names|
      invariant FindCommon(env, cert, names) == FindCommon(env, cert, names[j..])
    {
      assert names[j..][1..] == names[j + 1..];
      if names[j] in env.sets {
        var set_ := env.sets[names[j]];
        for pos := 0 to |set_|
          invariant FindFrom(set_, cert, 0) == FindFrom(set_, cert, pos)
        {
          if set_[pos] == cert {
            return Common(names[j], pos);
          }
        }
      }
    }
    return Compressed;
  }

  method BuildEntries(env: Env, chain: seq<Cert>, cachedHashes: seq<nat>, setHashes: seq<nat>) returns (res: seq<Entry>)
    ensures res == Entries(env, chain, cachedHashes, setHashes)
  {
    res := [];
    for i := 0 to |chain|
      invariant Entries(env, chain, cachedHashes, setHashes) == res + Entries(env, chain[i..], cachedHashes, setHashes)
    {
      assert chain[i..][1..] == chain[i + 1..];
      var e;
      if env.hash(chain[i]) in cachedHashes {
        e := Cached(env.hash(chain[i]));
      } else {
        e := FindInSets(env, chain[i], setHashes);
      }
      res := res + [e];
    }
    assert res + [] == res;
  }

  method BuildZlibDict(env: Env, entries: seq<Entry>, chain: seq<Cert>) returns (dict: seq<Byte>)
    requires |entries| == |chain|
    ensures dict == Dictionary(env, entries, chain)
  {
    dict := [];
    for i := |entries| downto 0
      invariant dict == Known(entries[i..], chain[i..])
    {
      assert entries[i..][1..] == entries[i + 1..] && chain[i..][1..] == chain[i + 1..];
      if !entries[i].Compressed? {
        dict := dict + chain[i];
      }
    }
    assert entries[0..] == entries && chain[0..] == chain;
    dict := dict + env.dict;
  }

  method WriteEntries(entries: seq<Entry>) returns (res: seq<Byte>)
    ensures res == ListBytes(entries)
  {
    res := [];
    for i := 0 to |entries|
      invariant ListBytes(entries) == res + ListBytes(entries[i..])
    {
      assert entries[i..][1..] == entries[i + 1..];
      ghost var tail := ListBytes(entries[i + 1..]);
      assert res + (EntryBytes(entries[i]) + tail) == res + EntryBytes(entries[i]) + tail;
      res := res + EntryBytes(entries[i]);
    }
    assert res + [] == res;
  }

  method WriteCerts(entries: seq<Entry>, chain: seq<Cert>) returns (plain: seq<Byte>)
    requires |entries| == |chain|
    ensures plain == Plain(entries, chain)
  {
    plain := [];
    for i := 0 to |entries|
      invariant Plain(entries, chain) == plain + Plain(entries[i..], chain[i..])
    {
      assert entries[i..][1..] == entries[i + 1..] && chain[i..][1..] == chain[i + 1..];
      ghost var tail := Plain(entries[i + 1..], chain[i + 1..]);
      if entries[i].Compressed? {
        var piece := LittleEndian(|chain[i]|, 4) + chain[i];
        assert plain + (piece + tail) == plain + piece + tail;
        plain := plain + piece;
      } else {
        assert [] + tail == tail;
      }
    }
    assert plain + [] == plain;
  }

  method CompressChain(env: Env, chain: seq<Cert>, pCommonSetHashes: seq<Byte>, pCachedHashes: seq<Byte>)
    returns (r: Result<seq<Byte>>)
    ensures r == CompressedChain(env, chain, pCommonSetHashes, pCachedHashes)
  {
    var cached := ReadHashes(pCachedHashes);
    if cached.Err? {
      return Err(cached.error);
    }
    var names := ReadHashes(pCommonSetHashes);
    if names.Err? {
      return Err(names.error);
    }
    var entries := BuildEntries(env, chain, cached.value, names.value);
    var res := WriteEntries(entries);
    res := res + [0];
    var plain := WriteCerts(entries, chain);
    if |plain| > 0 {
      var dict := BuildZlibDict(env, entries, chain);
      res := res + (LittleEndian(|plain|, 4) + env.deflate(dict, plain));
    } else {
      assert res + [] == res;
    }
    return Ok(res);
  }

  /** The list that begins with `es` and `certs` and goes on as `r` says. */
  function Joined(es: seq<Entry>, certs: seq<Cert>, r: Result<List>): Result<List> {
    if r.Err? then r else Ok(List(es + r.value.entries, certs + r.value.chain, r.value.rest))
  }

  lemma JoinedOne(es: seq<Entry>, certs: seq<Cert>, e: Entry, cert: Cert, r: Result<List>)
    ensures Joined(es, certs, OneMore(e, cert, r)) == Joined(es + [e], certs + [cert], r)
  {
    if r.Ok? {
      assert es + ([e] + r.value.entries) == es + [e] + r.value.entries;
      assert certs + ([cert] + r.value.chain) == certs + [cert] + r.value.chain;
    }
  }

  /** Reads a common entry behind its type byte. */
  method ReadCommon(env: Env, data: seq<Byte>) returns (r: Result<Entry>)
    requires data != [] && data[0] == 3
    ensures r.Err? ==> Parsed(env, data) == Err(r.error)
    ensures r.Ok? ==>
      && r.value.Common? && r.value.set_ in env.sets && r.value.index < |env.sets[r.value.set_]| && |data| >= 13
      && Parsed(env, data) == OneMore(r.value, env.sets[r.value.set_][r.value.index], Parsed(env, data[13..]))
  {
    if |data| < 13 {
      return Err(EndOfData);
    }
    var h, i := Value(data[1..9]), Value(data[9..13]);
    if h !in env.sets {
      return Err(UnknownSet);
    }
    if i >= |env.sets[h]| {
      return Err(NotInSet);
    }
    return Ok(Common(h, i));
  }

  method ReadEntries(env: Env, data: seq<Byte>) returns (r: Result<List>)
    ensures r == Parsed(env, data)
  {
    var entries, chain, rest := [], [], data;
    ghost var all := Parsed(env, data);
    assert all.Ok? ==> [] + all.value.entries == all.value.entries && [] + all.value.chain == all.value.chain;
    while rest != [] && rest[0] != 0
      invariant all == Joined(entries, chain, Parsed(env, rest))
      decreases |rest|
    {
      if rest[0] == 2 {
        return Err(UnexpectedCached);
      } else if rest[0] == 3 {
        var e := ReadCommon(env, rest);
        if e.Err? {
          return Err(e.error);
        }
        var cert := env.sets[e.value.set_][e.value.index];
        JoinedOne(entries, chain, e.value, cert, Parsed(env, rest[13..]));
        entries, chain, rest := entries + [e.value], chain + [cert], rest[13..];
      } else if rest[0] == 1 {
        JoinedOne(entries, chain, Compressed, [], Parsed(env, rest[1..]));
        entries, chain, rest := entries + [Compressed], chain + [[]], rest[1..];
      } else {
        return Err(UnknownType);
      }
    }
    assert entries + [] == entries && chain + [] == chain;
    return Ok(List(entries, chain, if rest == [] then [] else rest[1..]));
  }

  lemma AfterOne(certs: seq<Cert>, cert: Cert, r: Result<seq<Cert>>)
    ensures After(certs, After([cert], r)) == After(certs + [cert], r)
  {
    if r.Ok? {
      assert certs + ([cert] + r.value) == certs + [cert] + r.value;
    }
  }

  /** The certificates before `i` are in place; filling in the others arrives at `all`. */
  ghost predicate FillsTo(all: Result<seq<Cert>>, entries: seq<Entry>, chain: seq<Cert>, i: nat,
                          plain: seq<Byte>, total: nat, target: nat) {
    && i <= |entries| == |chain|
    && all == After(chain[..i], Filled(entries[i..], chain[i..], plain, total, target))
  }

  /** There is a whole certificate to read. */
  predicate Readable(plain: seq<Byte>) {
    |plain| >= 4 && |plain| - 4 >= Value(plain[..4])
  }

  lemma FillEnds(all: Result<seq<Cert>>, entries: seq<Entry>, chain: seq<Cert>, i: nat,
                 plain: seq<Byte>, total: nat, target: nat)
    requires FillsTo(all, entries, chain, i, plain, total, target)
    ensures total >= target ==> all == Ok(chain)
    ensures total < target && !Readable(plain) ==> all == Err(EndOfData)
    ensures total < target && Readable(plain) && i == |entries| ==> all == Err(NoEntry)
  {
    assert chain[..i] + chain[i..] == chain;
  }

  lemma FillSkips(all: Result<seq<Cert>>, entries: seq<Entry>, chain: seq<Cert>, i: nat,
                  plain: seq<Byte>, total: nat, target: nat)
    requires FillsTo(all, entries, chain, i, plain, total, target)
    requires i < |entries| && !entries[i].Compressed? && total < target && Readable(plain)
    ensures FillsTo(all, entries, chain, i + 1, plain, total, target)
  {
    assert entries[i..][1..] == entries[i + 1..] && chain[i..][1..] == chain[i + 1..];
    assert chain[..i + 1] == chain[..i] + [chain[i]];
    AfterOne(chain[..i], chain[i], Filled(entries[i + 1..], chain[i + 1..], plain, total, target));
  }

  lemma FillStores(all: Result<seq<Cert>>, entries: seq<Entry>, chain: seq<Cert>, i: nat,
                   plain: seq<Byte>, total: nat, target: nat)
    requires FillsTo(all, entries, chain, i, plain, total, target)
    requires i < |entries| && entries[i].Compressed? && total < target && Readable(plain)
    ensures
      var n := Value(plain[..4]);
      FillsTo(all, entries, chain[i := plain[4..4 + n]], i + 1, plain[4 + n..], (total + 4 + n) % TWO_32, target)
  {
    var n := Value(plain[..4]);
    var cert := plain[4..4 + n];
    var chain' := chain[i := cert];
    assert entries[i..][1..] == entries[i + 1..] && chain[i..][1..] == chain'[i + 1..];
    assert chain'[..i + 1] == chain[..i] + [cert];
    AfterOne(chain[..i], cert,
             Filled(entries[i + 1..], chain'[i + 1..], plain[4 + n..], (total + 4 + n) % TWO_32, target));
  }

  /** Fills in the certificates that were sent. */
  method FillCerts(entries: seq<Entry>, known: seq<Cert>, inflated: seq<Byte>, uncompressedLength: nat)
    returns (r: Result<seq<Cert>>)
    requires |entries| == |known|
    ensures r == Filled(entries, known, inflated, 0, uncompressedLength)
  {
    var chain, plain := known, inflated;
    var totalLength: nat, certIndex: nat := 0, 0;
    ghost var all := Filled(entries, known, inflated, 0, uncompressedLength);
    assert entries[0..] == entries && chain[0..] == known;
    assert all.Ok? ==> [] + all.value == all.value;
    while totalLength < uncompressedLength
      invariant FillsTo(all, entries, chain, certIndex, plain, totalLength, uncompressedLength)
      decreases |plain|
    {
      FillEnds(all, entries, chain, certIndex, plain, totalLength, uncompressedLength);
      if |plain| < 4 || |plain| - 4 < Value(plain[..4]) {
        return Err(EndOfData);
      }
      var certLen := Value(plain[..4]);
      var cert := plain[4..4 + certLen];
      while true
        invariant FillsTo(all, entries, chain, certIndex, plain, totalLength, uncompressedLength)
        decreases |entries| - certIndex
      {
        if certIndex >= |entries| {
          FillEnds(all, entries, chain, certIndex, plain, totalLength, uncompressedLength);
          return Err(NoEntry);
        }
        if entries[certIndex].Compressed? {
          FillStores(all, entries, chain, certIndex, plain, totalLength, uncompressedLength);
          chain := chain[certIndex := cert];
          certIndex := certIndex + 1;
          break;
        }
        FillSkips(all, entries, chain, certIndex, plain, totalLength, uncompressedLength);
        certIndex := certIndex + 1;
      }
      plain := plain[4 + certLen..];
      totalLength := (totalLength + 4 + certLen) % TWO_32;
    }
    FillEnds(all, entries, chain, certIndex, plain, totalLength, uncompressedLength);
    return Ok(chain);
  }

  method DecompressChain(env: Env, data: seq<Byte>) returns (r: Result<seq<Cert>>)
    ensures r == DecompressedChain(env, data)
  {
    var list := ReadEntries(env, data);
    if list.Err? {
      return Err(list.error);
    }
    var List(entries, chain, rest) := list.value;
    if Compressed !in entries {
      return Ok(chain);
    }
    if |rest| < 4 {
      return Err(EndOfData);
    }
    var dict := BuildZlibDict(env, entries, chain);
    var plain := env.inflate(dict, rest[4..]);
    if plain.None? {
      return Err(BadStream);
    }
    r := FillCerts(entries, chain, plain.value, Value(rest[..4]));
  }
}
