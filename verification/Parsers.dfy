/**
 * The stream parsers that cut elementary streams into access units.
 *
 * `Parse` is what one call of a parser does, written as a scan over the bytes kept from the previous
 * section followed by the bytes of the current one. `ParseAvc` and `ParseAudio` are the parsers in
 * the form in which they run: a search through the kept bytes, a search through the new ones, and,
 * for audio, a jump over the part of a frame that need not be searched.
 */
module Parsers {
  import opened Bytes

  datatype Codec = Avc | Ac3 | Atracx

  /** `OutOfSection` is not a state of the source: its parser has left the section it was given. */
  datatype AuState = NoAu | Incomplete | Commenced | Complete | SizeMismatch | OutOfSection

  datatype AccessUnit = AccessUnit(state: AuState, sizeInfoOffset: nat, parsedSize: nat, accumulatedSize: nat) {
    predicate Ok() {
      state == NoAu ==> this == NO_AU
    }

    predicate Stopped() {
      state == Complete || state == SizeMismatch
    }
  }

  const NO_AU := AccessUnit(NoAu, 0, 0, 0)

  const ATRACX_ATS_HEADER_SIZE: nat := 8

  /** The bit rate in kbit/s that a pair of AC-3 frame size codes stands for. */
  function Ac3BitRate(frmsizecod: nat): nat {
    var i := frmsizecod / 2;
    if i < 4 then 32 + 8 * i else if i < 8 then 16 * i else if i < 12 then 32 * (i - 4) else 64 * (i - 8)
  }

  /** Frame size in 16-bit words, as tabulated for sampling rates of 48, 44.1 and 32 kHz. */
  function Ac3FrameWords(fscod: nat, frmsizecod: nat): nat {
    var rate := Ac3BitRate(frmsizecod);
    match fscod
    case 0 => rate * 2
    case 1 => rate * 320 / 147 + frmsizecod % 2
    case _ => rate * 3
  }

  function SyncWord(codec: Codec): (code: seq<byte>) {
    match codec
    case Avc => [0x00, 0x00, 0x01, 0x09]
    case Ac3 => [0x0b, 0x77]
    case Atracx => [0x0f, 0xd0]
  }

  /** How far behind the sync word the size field starts. */
  function SizeInfoOffset(codec: Codec): nat {
    match codec
    case Avc => 0
    case Ac3 => 4
    case Atracx => 2
  }

  /** The access unit size that a two-byte header field stands for; zero if the field is invalid. */
  function AuSize(codec: Codec, hi: byte, lo: byte): nat {
    var data := hi as nat * 256 + lo as nat;
    match codec
    case Avc => 0
    case Ac3 =>
      var fscod, frmsizecod := data / 0x4000, data / 0x100 % 0x40;
      if fscod < 3 && frmsizecod < 38 then Ac3FrameWords(fscod, frmsizecod) * 2 else 0
    case Atracx =>
      if data % 0x400 < 0x200 then (data % 0x400 + 1) * 8 + ATRACX_ATS_HEADER_SIZE else 0
  }

  predicate Sync(codec: Codec, window: seq<byte>) {
    SyncWord(codec) <= window
  }

  /** The up to four bytes that can be looked at from position i on. */
  function Window(w: seq<byte>, i: nat): (window: seq<byte>)
    requires i <= |w|
    ensures i < |w| ==> window != [] && window[0] == w[i]
  {
    w[i..if i + 4 <= |w| then i + 4 else |w|]
  }

  datatype Verdict = Pass(sizeInfoOffset: nat, parsedSize: nat) | Begin | Cut | Mismatch

  /** What the parser makes of one position, `len` bytes into the current access unit (if any). */
  function Visit(codec: Codec, inAu: bool, offset: nat, size: nat, len: int, window: seq<byte>): Verdict {
    if offset != 0 then
      Pass(offset - 1, if offset == 1 && |window| >= 2 then AuSize(codec, window[0], window[1]) else size)
    else if !Sync(codec, window) then Pass(0, size)
    else if !inAu then Begin
    else if codec.Avc? || len == size then Cut
    else if len < size then Pass(0, size)
    else Mismatch
  }

  /**
   * A parser call under way: so many of the bytes kept from the previous section and then so many
   * of the new ones are behind it. `begin` is where the part of the new bytes that is output begins.
   */
  datatype Cursor = Cursor(cache: seq<byte>, stream: seq<byte>, cacheIdx: nat,
                           streamIt: nat, begin: nat, au: AccessUnit)
  {
    predicate Ok() {
      cacheIdx <= |cache| && begin <= streamIt <= |stream| && (cacheIdx < |cache| ==> streamIt == 0)
    }

    function Pos(): nat {
      cacheIdx + streamIt
    }

    /** The bytes that can be looked at from here. */
    function Look(): seq<byte>
      requires Pos() < |cache + stream|
    {
      Window(cache + stream, Pos())
    }

    /** All positions are visited but the last three of the new bytes. */
    function Limit(): nat {
      if |stream| >= 3 then |cache| + |stream| - 3 else |cache|
    }

    predicate AtEnd() {
      au.Stopped() || Pos() >= Limit()
    }

    function Next(): Cursor {
      if cacheIdx < |cache| then this.(cacheIdx := cacheIdx + 1) else this.(streamIt := streamIt + 1)
    }

    /** The length of the current access unit up to here. */
    function Len(): int {
      if cacheIdx < |cache| then au.accumulatedSize + cacheIdx else au.accumulatedSize + streamIt - begin + |cache|
    }

    /** The chunk cut out so far. */
    function Chunk(): seq<byte>
      requires Ok()
    {
      cache[..cacheIdx] + Slice(stream, begin, streamIt)
    }
  }

  function Advance(codec: Codec, k: Cursor): (k': Cursor)
    requires k.Pos() < |k.cache + k.stream|
  {
    match Visit(codec, k.au.state != NoAu, k.au.sizeInfoOffset, k.au.parsedSize, k.Len(), k.Look())
    case Pass(offset, size) => k.Next().(au := k.au.(sizeInfoOffset := offset, parsedSize := size))
    case Begin =>
      k.Next().(begin := k.streamIt, au := k.au.(state := Commenced, sizeInfoOffset := SizeInfoOffset(codec)))
    case Cut => k.(au := k.au.(state := Complete))
    case Mismatch => k.(au := k.au.(state := SizeMismatch))
  }

  function Scan(codec: Codec, k: Cursor): (r: Cursor)
    requires k.Ok()
    ensures r.Ok() && r.cache == k.cache && r.stream == k.stream
    decreases |k.cache + k.stream| - k.Pos(), if k.au.Stopped() then 0 else 1
  {
    if k.AtEnd() then k else Scan(codec, Advance(codec, k))
  }

  /** The chunk cut out, what is kept for the next section, and how many of the new bytes are used up. */
  datatype Parsed = Parsed(au: AccessUnit, cached: seq<byte>, data: seq<byte>, cache: seq<byte>, consumed: nat) {
    function Chunk(): seq<byte> { cached + data }
  }

  function StartCursor(au: AccessUnit, cache: seq<byte>, stream: seq<byte>): (k: Cursor)
    ensures k.Ok()
  {
    Cursor(cache, stream, 0, 0, 0, if au.state == NoAu then au else au.(state := Incomplete))
  }

  function Pieces(k: Cursor): (p: Parsed)
    requires k.Ok()
  {
    if k.au.state == NoAu then
      Parsed(k.au, [], [], k.cache[k.cacheIdx..] + k.stream[k.streamIt..], |k.stream|)
    else if !k.au.Stopped() then
      Parsed(k.au, k.cache[..k.cacheIdx], Slice(k.stream, k.begin, k.streamIt),
             k.cache[k.cacheIdx..] + k.stream[k.streamIt..], |k.stream|)
    else
      Parsed(k.au, k.cache[..k.cacheIdx], Slice(k.stream, k.begin, k.streamIt), k.cache[k.cacheIdx..],
             if k.au.state == Complete then k.streamIt else |k.stream|)
  }

  /**
   * How many bytes of a frame whose size is known are still missing behind a section that is shorter than
   * four bytes. A call for audio then jumps this far, whether or not the section has so many bytes.
   */
  function Missing(codec: Codec, k: Cursor): (m: nat) {
    var len := k.au.accumulatedSize + |k.cache|;
    if |k.stream| >= 4 || codec.Avc? || k.au.Stopped() || k.au.state == NoAu || k.au.sizeInfoOffset != 0 then 0
    else if len < k.au.parsedSize then k.au.parsedSize - len else 0
  }

  /** The parser jumps out of its section. */
  predicate Leaves(codec: Codec, k: Cursor) {
    Missing(codec, k) > |k.stream|
  }

  function Jump(codec: Codec, k: Cursor): Cursor {
    k.(streamIt := k.streamIt + Missing(codec, k))
  }

  /** With a section of four bytes or more there is nothing to jump over but what is searched anyway. */
  lemma NoJump(codec: Codec, k: Cursor)
    requires |k.stream| >= 4 || codec.Avc? || k.au.Stopped() || k.au.state == NoAu
    ensures Missing(codec, k) == 0 && !Leaves(codec, k) && Jump(codec, k) == k
  {
  }

  /** In a short section only the kept bytes are searched. */
  lemma {:induction false} ScanShort(codec: Codec, k: Cursor)
    requires k.Ok() && |k.stream| < 4 && k.streamIt == k.begin == 0
    ensures var r := Scan(codec, k); r.streamIt == r.begin == 0 && (r.au.Stopped() || r.cacheIdx == |k.cache|)
    decreases |k.cache| - k.cacheIdx, if k.au.Stopped() then 0 else 1
  {
    hide Window, Visit;
    if !k.AtEnd() {
      ScanShort(codec, Advance(codec, k));
    }
  }

  /** One call of a parser. */
  function Parse(codec: Codec, au: AccessUnit, cache: seq<byte>, stream: seq<byte>): (p: Parsed) {
    var k := Scan(codec, StartCursor(au, cache, stream));
    if Leaves(codec, k) then Parsed(au.(state := OutOfSection), [], [], [], |stream|)
    else
      assert Jump(codec, k).Ok() by { JumpOk(codec, au, cache, stream); }
      Pieces(Jump(codec, k))
  }

  lemma JumpOk(codec: Codec, au: AccessUnit, cache: seq<byte>, stream: seq<byte>)
    requires !Leaves(codec, Scan(codec, StartCursor(au, cache, stream)))
    ensures Jump(codec, Scan(codec, StartCursor(au, cache, stream))).Ok()
  {
    var k := Scan(codec, StartCursor(au, cache, stream));
    if |stream| < 4 {
      ScanShort(codec, StartCursor(au, cache, stream));
    } else {
      NoJump(codec, k);
    }
  }

  /** The kept bytes and the first few new ones, padded to eight bytes. */
  function Padded(cache: seq<byte>, stream: seq<byte>, lookahead: nat, fill: byte): (buf: seq<byte>)
    requires |cache| <= 3 && lookahead <= 3
    ensures |buf| == 8
    ensures forall j | 0 <= j < |buf| :: buf[j] ==
              if j < |cache| + lookahead && j < |cache| + |stream| then (cache + stream)[j] else fill
  {
    var n := if |stream| < lookahead then |stream| else lookahead;
    cache + stream[..n] + seq(8 - |cache| - n, _ => fill)
  }

  /** Reading from the padded buffer finds the delimiter exactly where the joined bytes hold it. */
  lemma PaddedSync(cache: seq<byte>, stream: seq<byte>, i: nat)
    requires i < |cache| <= 3
    ensures Padded(cache, stream, 3, 0xff)[i..i + 4] == SyncWord(Avc) <==> Sync(Avc, Window(cache + stream, i))
  {
    hide Padded;
    var w, buf := cache + stream, Padded(cache, stream, 3, 0xff);
    if i + 4 <= |w| {
      assert buf[i..i + 4] == w[i..i + 4];
    } else {
      assert buf[i..i + 4][3] == buf[i + 3] == 0xff;
    }
  }

  lemma WindowInStream(cache: seq<byte>, stream: seq<byte>, i: nat)
    requires i + 4 <= |stream|
    ensures stream[i..i + 4] == SyncWord(Avc) <==> Sync(Avc, Window(cache + stream, |cache| + i))
  {
    assert Window(cache + stream, |cache| + i) == stream[i..i + 4];
  }

  lemma ScanStep(codec: Codec, k: Cursor)
    requires k.Ok()
    ensures k.AtEnd() ==> Scan(codec, k) == k
    ensures !k.AtEnd() ==> k.Pos() < |k.cache + k.stream| && Scan(codec, k) == Scan(codec, Advance(codec, k))
    ensures !k.AtEnd() && Advance(codec, k).au.Stopped() ==> Scan(codec, k) == Advance(codec, k)
  {
  }

  /** One position of an AVC scan. */
  lemma AvcStep(k: Cursor, hit: bool)
    requires k.Ok() && !k.AtEnd() && k.au.sizeInfoOffset == 0
      && (hit <==> Sync(Avc, Window(k.cache + k.stream, k.Pos())))
    ensures !hit ==> Scan(Avc, k) == Scan(Avc, k.Next())
    ensures hit && k.au.state != NoAu ==> Scan(Avc, k) == k.(au := k.au.(state := Complete))
    ensures hit && k.au.state == NoAu ==>
              Scan(Avc, k) == Scan(Avc, k.Next().(begin := k.streamIt, au := k.au.(state := Commenced)))
  {
    hide Scan, Window, Sync;
    ScanStep(Avc, k);
  }

  /** The search of `video_stream<true>::parse_stream` through the kept bytes. */
  method SearchAvcCache(au: AccessUnit, cache: seq<byte>, stream: seq<byte>) returns (k: Cursor)
    requires |cache| <= 3 && au.sizeInfoOffset == 0
    ensures k.Ok() && k.cache == cache && k.stream == stream && k.streamIt == 0
    ensures k.au.sizeInfoOffset == 0 && k.au.state != SizeMismatch && (k.au.state == Complete || k.cacheIdx == |cache|)
    ensures Scan(Avc, StartCursor(au, cache, stream)) == if k.au.state == Complete then k else Scan(Avc, k)
  {
    hide Scan, Window, Sync, SyncWord, Padded;
    var buf := Padded(cache, stream, 3, 0xff);
    k := StartCursor(au, cache, stream);
    while k.cacheIdx < |cache|
      invariant k.Ok() && k.cache == cache && k.stream == stream && k.streamIt == 0
      invariant !k.au.Stopped() && k.au.sizeInfoOffset == 0
      invariant Scan(Avc, StartCursor(au, cache, stream)) == Scan(Avc, k)
      decreases |cache| - k.cacheIdx
    {
      PaddedSync(cache, stream, k.cacheIdx);
      AvcStep(k, buf[k.cacheIdx..k.cacheIdx + 4] == SyncWord(Avc));
      if buf[k.cacheIdx..k.cacheIdx + 4] == SyncWord(Avc) {
        if k.au.state != NoAu {
          k := k.(au := k.au.(state := Complete));
          return;
        }
        k := k.(au := k.au.(state := Commenced));
      }
      k := k.(cacheIdx := k.cacheIdx + 1);
    }
  }

  /** The search of `video_stream<true>::parse_stream` for the delimiter that ends or starts an access unit. */
  method SearchAvc(au: AccessUnit, cache: seq<byte>, stream: seq<byte>) returns (k: Cursor)
    requires |cache| <= 3 && au.sizeInfoOffset == 0
    ensures k == Scan(Avc, StartCursor(au, cache, stream))
    ensures k.au.state != SizeMismatch
  {
    hide Scan, Window, Sync, SyncWord;
    k := SearchAvcCache(au, cache, stream);
    if k.au.state == Complete {
      return;
    }
    while k.streamIt + 4 <= |stream|
      invariant k.Ok() && k.cache == cache && k.stream == stream && k.cacheIdx == |cache|
      invariant !k.au.Stopped() && k.au.sizeInfoOffset == 0
      invariant Scan(Avc, StartCursor(au, cache, stream)) == Scan(Avc, k)
      decreases |stream| - k.streamIt
    {
      WindowInStream(cache, stream, k.streamIt);
      AvcStep(k, stream[k.streamIt..k.streamIt + 4] == SyncWord(Avc));
      if stream[k.streamIt..k.streamIt + 4] == SyncWord(Avc) {
        if k.au.state != NoAu {
          k := k.(au := k.au.(state := Complete));
          return;
        }
        k := k.(begin := k.streamIt, au := k.au.(state := Commenced));
      }
      k := k.(streamIt := k.streamIt + 1);
    }
    ScanStep(Avc, k);
  }

  /** `video_stream<true>::parse_stream`: AVC access units start at delimiters. */
  method ParseAvc(au: AccessUnit, cache: seq<byte>, stream: seq<byte>) returns (p: Parsed)
    requires |cache| <= 3 && au.sizeInfoOffset == 0
    ensures p == Parse(Avc, au, cache, stream)
  {
    hide Slice, Scan;
    var k := SearchAvc(au, cache, stream);
    NoJump(Avc, k);
    p := Parsed(k.au, [], [], [], |stream|);
    if k.au.state != NoAu {
      p := p.(cached := cache[..k.cacheIdx], data := Slice(stream, k.begin, k.streamIt));
    }
    p := p.(cache := cache[k.cacheIdx..]);
    // The end of the section is kept if no access unit was completed: it may hold part of a delimiter
    if k.au.state != Complete {
      p := p.(cache := p.cache + stream[k.streamIt..]);
    } else {
      p := p.(consumed := k.streamIt);
    }
  }

  /** A position strictly inside a frame whose size is known never ends it. */
  lemma {:induction false} SkipAhead(codec: Codec, k: Cursor, d: nat)
    requires !codec.Avc? && k.Ok() && !k.au.Stopped()
    requires k.cacheIdx == |k.cache| && k.begin == 0 && k.au.state != NoAu && k.au.sizeInfoOffset == 0
    requires k.Len() + d <= k.au.parsedSize && k.streamIt + d + 4 <= |k.stream|
    ensures Scan(codec, k) == Scan(codec, k.(streamIt := k.streamIt + d))
    decreases d
  {
    hide Scan, Window, Sync;
    if d > 0 {
      ScanStep(codec, k);
      SkipAhead(codec, k.Next(), d - 1);
    }
  }

  /** Two bytes read at a position of the joined bytes decide like the window there. */
  lemma AudioWindow(codec: Codec, w: seq<byte>, i: nat, pair: seq<byte>)
    requires !codec.Avc? && i + 1 < |w| && |pair| == 2 && pair[0] == w[i] && pair[1] == w[i + 1]
    ensures Sync(codec, Window(w, i)) <==> pair == SyncWord(codec)
    ensures |Window(w, i)| >= 2 && Window(w, i)[0] == pair[0] && Window(w, i)[1] == pair[1]
  {
    assert |SyncWord(codec)| == 2;
    assert pair == [pair[0], pair[1]];
  }

  /** One position of an audio scan. */
  lemma AudioStep(codec: Codec, k: Cursor, pair: seq<byte>)
    requires !codec.Avc? && k.Ok() && !k.AtEnd() && k.Pos() + 1 < |k.cache + k.stream| && |pair| == 2
    requires pair[0] == (k.cache + k.stream)[k.Pos()] && pair[1] == (k.cache + k.stream)[k.Pos() + 1]
    ensures var au, hit := k.au, pair == SyncWord(codec);
      && (au.sizeInfoOffset > 1 ==>
            Scan(codec, k) == Scan(codec, k.Next().(au := au.(sizeInfoOffset := au.sizeInfoOffset - 1))))
      && (au.sizeInfoOffset == 1 ==>
            Scan(codec, k) ==
              Scan(codec, k.Next().(au := au.(sizeInfoOffset := 0, parsedSize := AuSize(codec, pair[0], pair[1])))))
      && (au.sizeInfoOffset == 0 && (!hit || (au.state != NoAu && k.Len() < au.parsedSize)) ==>
            Scan(codec, k) == Scan(codec, k.Next()))
      && (au.sizeInfoOffset == 0 && hit && au.state == NoAu ==>
            Scan(codec, k) ==
            Scan(codec, k.Next().(begin := k.streamIt,
                          au := au.(sizeInfoOffset := SizeInfoOffset(codec), state := Commenced))))
      && (au.sizeInfoOffset == 0 && hit && au.state != NoAu && k.Len() >= au.parsedSize ==>
            Scan(codec, k) == k.(au := au.(state := if k.Len() == au.parsedSize then Complete else SizeMismatch)))
  {
    hide Scan, Window, Sync, AuSize, SyncWord;
    AudioWindow(codec, k.cache + k.stream, k.Pos(), pair);
    ScanStep(codec, k);
  }

  /** The search of `audio_stream::parse_stream` through the kept bytes. */
  method SearchAudioCache(codec: Codec, au: AccessUnit, cache: seq<byte>, stream: seq<byte>) returns (k: Cursor)
    requires !codec.Avc? && |cache| <= 3 && stream != []
    ensures k.Ok() && k.cache == cache && k.stream == stream
    ensures k.begin == k.streamIt == 0 && (k.au.Stopped() || k.cacheIdx == |cache|)
    ensures Scan(codec, StartCursor(au, cache, stream)) == if k.au.Stopped() then k else Scan(codec, k)
  {
    hide Scan, Window, Sync, SyncWord, AuSize, Padded;
    var buf := Padded(cache, stream, 1, 0);
    k := StartCursor(au, cache, stream);
    while k.cacheIdx < |cache|
      invariant k.Ok() && k.cache == cache && k.stream == stream && k.begin == k.streamIt == 0 && !k.au.Stopped()
      invariant Scan(codec, StartCursor(au, cache, stream)) == Scan(codec, k)
      decreases |cache| - k.cacheIdx
    {
      var pair := [buf[k.cacheIdx], buf[k.cacheIdx + 1]];
      AudioStep(codec, k, pair);
      if k.au.sizeInfoOffset != 0 {
        k := k.(au := k.au.(sizeInfoOffset := k.au.sizeInfoOffset - 1));
        if k.au.sizeInfoOffset == 0 {
          k := k.(au := k.au.(parsedSize := AuSize(codec, pair[0], pair[1])));
        }
      } else if pair == SyncWord(codec) {
        if k.au.state == NoAu {
          k := k.(au := k.au.(sizeInfoOffset := SizeInfoOffset(codec), state := Commenced));
        } else {
          var auSize := k.au.accumulatedSize + k.cacheIdx;
          if auSize >= k.au.parsedSize {
            k := k.(au := k.au.(state := if auSize == k.au.parsedSize then Complete else SizeMismatch));
            return;
          }
        }
      }
      k := k.(cacheIdx := k.cacheIdx + 1);
    }
  }

  /**
   * The search of `audio_stream::parse_stream` for the sync word that ends or starts a frame. It leaves
   * the section exactly if this has less than four bytes, the size of the current frame is known, and more
   * bytes of the frame are missing than the section has.
   */
  method SearchAudio(codec: Codec, au: AccessUnit, cache: seq<byte>, stream: seq<byte>) returns (r: Option<Cursor>)
    requires !codec.Avc? && |cache| <= 3 && stream != []
    ensures var k := Scan(codec, StartCursor(au, cache, stream));
      r == if Leaves(codec, k) then None else Some(Jump(codec, k))
  {
    hide Scan, Window, Sync, SyncWord, AuSize;
    ghost var end := Scan(codec, StartCursor(au, cache, stream));
    var k := SearchAudioCache(codec, au, cache, stream);
    if k.au.Stopped() {
      NoJump(codec, end);
      return Some(k);
    }

    // As long as the current access unit is shorter than its header says, the stream need not be parsed
    if k.au.state != NoAu && k.au.sizeInfoOffset == 0 && k.au.accumulatedSize + |cache| < k.au.parsedSize {
      var d := k.au.parsedSize - k.au.accumulatedSize - |cache|;
      if |stream| >= 4 {
        d := if d < |stream| - 4 then d else |stream| - 4;
        SkipAhead(codec, k, d);
      } else {
        // The difference that should limit the jump is negative, and wraps around
        ScanStep(codec, k);
        if d > |stream| {
          return None;
        }
        return Some(k.(streamIt := d));
      }
      k := k.(streamIt := k.streamIt + d);
    }

    while k.streamIt + 4 <= |stream|
      invariant k.Ok() && k.cache == cache && k.stream == stream && k.cacheIdx == |cache| && !k.au.Stopped()
      invariant Scan(codec, StartCursor(au, cache, stream)) == Scan(codec, k)
      invariant |stream| < 4 ==> Missing(codec, k) == 0
      decreases |stream| - k.streamIt
    {
      var pair := [stream[k.streamIt], stream[k.streamIt + 1]];
      AudioStep(codec, k, pair);
      if k.au.sizeInfoOffset != 0 {
        k := k.(au := k.au.(sizeInfoOffset := k.au.sizeInfoOffset - 1));
        if k.au.sizeInfoOffset == 0 {
          k := k.(au := k.au.(parsedSize := AuSize(codec, pair[0], pair[1])));
        }
      } else if pair == SyncWord(codec) {
        if k.au.state == NoAu {
          k := k.(begin := k.streamIt, au := k.au.(sizeInfoOffset := SizeInfoOffset(codec), state := Commenced));
        } else {
          var auSize := k.au.accumulatedSize + k.streamIt - k.begin + |cache|;
          if auSize >= k.au.parsedSize {
            k := k.(au := k.au.(state := if auSize == k.au.parsedSize then Complete else SizeMismatch));
            NoJump(codec, end);
            return Some(k);
          }
        }
      }
      k := k.(streamIt := k.streamIt + 1);
    }
    ScanStep(codec, k);
    return Some(k);
  }

  /** `audio_stream::parse_stream`: frames start at sync words and have the size in their header. */
  method ParseAudio(codec: Codec, au: AccessUnit, cache: seq<byte>, stream: seq<byte>) returns (p: Parsed)
    requires !codec.Avc? && |cache| <= 3 && stream != []
    ensures p == Parse(codec, au, cache, stream)
  {
    hide Slice, Scan;
    var r := SearchAudio(codec, au, cache, stream);
    if r.None? {
      return Parsed(au.(state := OutOfSection), [], [], [], |stream|);
    }
    JumpOk(codec, au, cache, stream);
    var k := r.value;
    p := Parsed(k.au, [], [], [], |stream|);
    if k.au.state != NoAu {
      p := p.(cached := cache[..k.cacheIdx], data := Slice(stream, k.begin, k.streamIt));
    }
    p := p.(cache := cache[k.cacheIdx..]);
    if !k.au.Stopped() {
      p := p.(cache := p.cache + stream[k.streamIt..]);
    }
    if k.au.state == Complete {
      p := p.(consumed := k.streamIt);
    }
  }
}
