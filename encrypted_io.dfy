/**
 * The rekeying discipline of `EncryptedIO` (external/rpcss.py). Each direction
 * keeps a cipher, a count of payload bytes handled under it and a refresh
 * budget; a write (a read) first exchanges a key frame and a budget frame when
 * the count has gone past the budget.
 *
 * Ciphers are symbolic: a frame sealed under a cipher state carries that state
 * and its plaintext, and only the same state opens it. An AES state carries
 * the stream position that CFB mode advances with every byte, so the two ends
 * must handle the same frames in the same order.
 */
module EncryptedChannel {
  import opened Options
  import opened Bytes

  /** `AES_MAX_BYTES` as the source writes it: `2^20` is bitwise exclusive-or in Python. */
  const AesMaxBytesAsWritten: nat := ((2 as bv8) ^ (20 as bv8)) as nat

  /** The one-mebibyte ceiling the source's comment gives for `AES_MAX_BYTES`. */
  const AesMaxBytes: nat := 0x10_0000

  const KeyBytes: nat := 16
  const BlockSize: nat := 16
  const BudgetBytes: nat := 8

  datatype Cipher =
    | Rsa(keyPair: nat)                           // PKCS1_OAEP under one RSA key pair
    | Aes(key: Bytes, iv: Bytes, position: nat)   // AES-CFB, `position` bytes into its stream

  datatype Frame =
    | PublicKey(keyPair: nat)                     // the handshake frame, sent in the clear
    | Sealed(cipher: Cipher, plain: Bytes)        // `plain` encrypted under `cipher`

  function Advance(c: Cipher, n: nat): Cipher {
    if c.Aes? then c.(position := c.position + n) else c
  }

  /** `cipher.encrypt(x)`: the frame and the cipher's next state. */
  function Encrypt(c: Cipher, x: Bytes): (Frame, Cipher) {
    (Sealed(c, x), Advance(c, |x|))
  }

  /** `cipher.decrypt(y)`: the plaintext and the cipher's next state, or None when `y` was not sealed under `c`. */
  function Decrypt(c: Cipher, f: Frame): Option<(Bytes, Cipher)> {
    if f.Sealed? && f.cipher == c then Some((f.plain, Advance(c, |f.plain|))) else None
  }

  /** `AES.new(key, AES.MODE_CFB, iv)`, which rejects other key sizes and IV lengths. */
  function AesNew(key: Bytes, iv: Bytes): Option<Cipher> {
    if (|key| == 16 || |key| == 24 || |key| == 32) && |iv| == BlockSize then Some(Aes(key, iv, 0)) else None
  }

  /** `struct.unpack('Q', t)[0]` on a little-endian machine. */
  function Unpack(t: Bytes): nat {
    if t == [] then 0 else t[0] as nat + 256 * Unpack(t[1..])
  }

  /** The budget drawn from the 8 random bytes `t`, reduced modulo a ceiling. */
  function Budget(t: Bytes, ceiling: nat): (b: nat)
    requires ceiling > 0
    ensures b < ceiling
  {
    Unpack(t) % ceiling
  }

  /** As written, at most 21 payload bytes may follow a rekey before the count passes the budget, not about a mebibyte. */
  lemma AsWrittenCeilingIs22(t: Bytes)
    ensures AesMaxBytesAsWritten == 22
    ensures Budget(t, AesMaxBytesAsWritten) <= 21 < AesMaxBytes
  {
  }

  /** With the intended ceiling every budget below one mebibyte can be drawn. */
  lemma {:induction false} IntendedCeilingReachable(b: nat)
    requires b < AesMaxBytes
    ensures Budget(LittleEndian8(b), AesMaxBytes) == b
  {
    UnpackLittleEndian(b, 8);
  }

  function LittleEndian(n: nat, width: nat): (t: Bytes)
    ensures |t| == width
  {
    if width == 0 then [] else [(n % 256) as byte] + LittleEndian(n / 256, width - 1)
  }

  function LittleEndian8(n: nat): Bytes {
    LittleEndian(n, BudgetBytes)
  }

  function Pow256(width: nat): nat {
    if width == 0 then 1 else 256 * Pow256(width - 1)
  }

  lemma {:induction false} UnpackLittleEndian(n: nat, width: nat)
    requires n < Pow256(width)
    ensures Unpack(LittleEndian(n, width)) == n
  {
    if width > 0 {
      var t := LittleEndian(n, width);
      assert t[1..] == LittleEndian(n / 256, width - 1);
      UnpackLittleEndian(n / 256, width - 1);
    }
  }

  /** The random bytes one rekey draws: `read(16)` for the key, `read(block_size)` for the IV, `read(8)` for the budget. */
  datatype Rekey = Rekey(key: Bytes, iv: Bytes, budget: Bytes)

  predicate ValidRekey(m: Rekey) {
    |m.key| == KeyBytes && |m.iv| == BlockSize && |m.budget| == BudgetBytes
  }

  /** One direction of a channel: `_writeCipher`, `_writeByteCount`, `_nextWriteRefresh` or their read counterparts. */
  datatype Direction = Direction(cipher: Cipher, count: nat, refresh: nat)

  /** The state `__init__` leaves a direction in: the count starts at twice the ceiling, the refresh at 0. */
  function Initial(c: Cipher, ceiling: nat): Direction {
    Direction(c, 2 * ceiling, 0)
  }

  /** The test both `write` and `_read_encrypted` make before handling a payload. */
  predicate NeedsRekey(d: Direction) {
    d.refresh < d.count
  }

  /**
   * The invariant of a direction: the budget lies below the ceiling; while the
   * RSA cipher is current a rekey is pending; once an AES key is current its
   * stream has carried the 8 budget bytes and then exactly `count` payload bytes.
   */
  predicate ValidDirection(d: Direction, ceiling: nat) {
    && d.refresh < ceiling
    && (d.cipher.Rsa? ==> NeedsRekey(d))
    && (d.cipher.Aes? ==> d.cipher.position == d.count + BudgetBytes)
  }

  lemma InitialIsValid(keyPair: nat, ceiling: nat)
    requires ceiling > 0
    ensures ValidDirection(Initial(Rsa(keyPair), ceiling), ceiling) && NeedsRekey(Initial(Rsa(keyPair), ceiling))
  {
  }

  /**
   * `EncryptedIO.write(x)`: the direction afterwards and the frames written. A
   * rekeying write emits the key frame (under the current cipher), the budget
   * frame (under the new key) and the payload; any other write emits the payload.
   */
  function WriteStep(d: Direction, x: Bytes, m: Rekey, ceiling: nat): (r: (Direction, seq<Frame>))
    requires ValidRekey(m) && ceiling > 0
    ensures |r.1| == (if NeedsRekey(d) then 3 else 1)
    ensures r.1[|r.1| - 1].Sealed? && r.1[|r.1| - 1].plain == x
    ensures r.0.count == (if NeedsRekey(d) then 0 else d.count) + |x|
    ensures r.0.refresh == (if NeedsRekey(d) then Budget(m.budget, ceiling) else d.refresh)
    ensures ValidDirection(d, ceiling) ==> ValidDirection(r.0, ceiling)
    // the payload goes out under a key that has carried at most `refresh` payload bytes before it
    ensures ValidDirection(d, ceiling) ==> r.1[|r.1| - 1].cipher.Aes? && r.1[|r.1| - 1].cipher.position - BudgetBytes <= r.0.refresh
  {
    if NeedsRekey(d) then
      var (keyFrame, _) := Encrypt(d.cipher, m.key + m.iv);
      var (budgetFrame, c) := Encrypt(Aes(m.key, m.iv, 0), m.budget);
      var (payload, c') := Encrypt(c, x);
      (Direction(c', |x|, Budget(m.budget, ceiling)), [keyFrame, budgetFrame, payload])
    else
      var (payload, c') := Encrypt(d.cipher, x);
      (Direction(c', d.count + |x|, d.refresh), [payload])
  }

  /** Why `_read_encrypted` (or the frame read under it) raised. */
  datatype ReadFailure =
    | EndOfStream          // `read` raised EOS
    | KeyFrameRejected     // the key frame does not open under the current cipher
    | BadKey               // `AES.new` rejected the key or IV
    | BudgetFrameRejected  // the budget frame does not open under the new key
    | BadBudget            // `struct.unpack` got other than 8 bytes
    | PayloadRejected      // the payload does not open under the current cipher

  datatype ReadOutcome =
    | Payload(data: Bytes, dir: Direction, rest: seq<Frame>)
    | ReadFailed(failure: ReadFailure)

  /** The payload branch of `_read_encrypted`, taken when no rekey is due. */
  function ReadPayload(d: Direction, inbound: seq<Frame>): (r: ReadOutcome)
    ensures r.Payload? ==> inbound != [] && r.rest == inbound[1..] && r.dir.count == d.count + |r.data| && r.dir.refresh == d.refresh
  {
    if inbound == [] then ReadFailed(EndOfStream)
    else match Decrypt(d.cipher, inbound[0])
      case None => ReadFailed(PayloadRejected)
      case Some((x, c)) => Payload(x, Direction(c, d.count + |x|, d.refresh), inbound[1..])
  }

  /**
   * `_read_encrypted()`: when the count has passed the budget, open the key
   * frame, build the new AES cipher, open the budget frame, reset the count and
   * set the budget, then read the payload (the recursive call, which cannot
   * rekey again because the count is 0).
   */
  function ReadStep(d: Direction, inbound: seq<Frame>, ceiling: nat): (r: ReadOutcome)
    requires ceiling > 0
    ensures r.Payload? ==> |r.rest| == |inbound| - (if NeedsRekey(d) then 3 else 1) && r.rest == inbound[|inbound| - |r.rest|..]
    ensures r.Payload? ==> r.dir.count == (if NeedsRekey(d) then 0 else d.count) + |r.data|
    ensures r.Payload? && !NeedsRekey(d) ==> r.dir.refresh == d.refresh
    ensures r.Payload? && ValidDirection(d, ceiling) ==> ValidDirection(r.dir, ceiling)
  {
    if !NeedsRekey(d) then ReadPayload(d, inbound)
    else if inbound == [] then ReadFailed(EndOfStream)
    else match Decrypt(d.cipher, inbound[0])
      case None => ReadFailed(KeyFrameRejected)
      case Some((keyIv, _)) =>
        var split := if |keyIv| < KeyBytes then |keyIv| else KeyBytes;
        match AesNew(keyIv[..split], keyIv[split..])
        case None => ReadFailed(BadKey)
        case Some(aes) =>
          if |inbound| < 2 then ReadFailed(EndOfStream)
          else match Decrypt(aes, inbound[1])
            case None => ReadFailed(BudgetFrameRejected)
            case Some((t, c)) =>
              if |t| != BudgetBytes then ReadFailed(BadBudget)
              else ReadPayload(Direction(c, 0, Budget(t, ceiling)), inbound[2..])
  }

  /** A reader whose direction mirrors the writer's reads back exactly the payload, and the two directions stay equal. */
  lemma MirroredStep(d: Direction, x: Bytes, m: Rekey, rest: seq<Frame>, ceiling: nat)
    requires ValidRekey(m) && ceiling > 0
    ensures var (d', frames) := WriteStep(d, x, m, ceiling); ReadStep(d, frames + rest, ceiling) == Payload(x, d', rest)
  {
    var (d', frames) := WriteStep(d, x, m, ceiling);
    if NeedsRekey(d) {
      var keyIv := m.key + m.iv;
      assert keyIv[..KeyBytes] == m.key && keyIv[KeyBytes..] == m.iv;
      assert (frames + rest)[0] == frames[0] && (frames + rest)[1] == frames[1];
      assert (frames + rest)[2..] == [frames[2]] + rest;
    } else {
      assert (frames + rest)[1..] == rest;
    }
  }

  /** The frames of several writes, one rekey draw per write. */
  function WriteMany(d: Direction, xs: seq<Bytes>, ms: seq<Rekey>, ceiling: nat): (r: (Direction, seq<Frame>))
    requires |ms| == |xs| && forall i :: 0 <= i < |ms| ==> ValidRekey(ms[i])
    requires ceiling > 0
    decreases |xs|
  {
    if xs == [] then (d, [])
    else
      var (d1, frames) := WriteStep(d, xs[0], ms[0], ceiling);
      var (d2, more) := WriteMany(d1, xs[1..], ms[1..], ceiling);
      (d2, frames + more)
  }

  /** `n` successive calls of `_read_encrypted`: the payloads, the direction and the frames left. */
  function ReadMany(d: Direction, inbound: seq<Frame>, n: nat, ceiling: nat): (r: Option<(seq<Bytes>, Direction, seq<Frame>)>)
    requires ceiling > 0
    decreases n
  {
    if n == 0 then Some(([], d, inbound))
    else match ReadStep(d, inbound, ceiling)
      case ReadFailed(_) => None
      case Payload(x, d1, rest) =>
        match ReadMany(d1, rest, n - 1, ceiling)
        case None => None
        case Some((xs, d2, rest')) => Some(([x] + xs, d2, rest'))
  }

  /** The frames of one write, read before `n - 1` more payloads, give that write's payload first. */
  lemma MirroredCons(d: Direction, x: Bytes, m: Rekey, more: seq<Frame>, rest: seq<Frame>, n: nat, xs: seq<Bytes>, d2: Direction, ceiling: nat)
    requires ValidRekey(m) && n > 0 && ceiling > 0
    requires ReadMany(WriteStep(d, x, m, ceiling).0, more + rest, n - 1, ceiling) == Some((xs, d2, rest))
    ensures ReadMany(d, WriteStep(d, x, m, ceiling).1 + more + rest, n, ceiling) == Some(([x] + xs, d2, rest))
  {
    var (d1, frames) := WriteStep(d, x, m, ceiling);
    assert ReadStep(d, frames + more + rest, ceiling) == Payload(x, d1, more + rest) by {
      MirroredStep(d, x, m, more + rest, ceiling);
      assert frames + more + rest == frames + (more + rest);
    }
    ReadManyStep(d, frames + more + rest, n, x, d1, more + rest, xs, d2, rest, ceiling);
  }

  /** A payload read first, then `n - 1` more. */
  lemma ReadManyStep(d: Direction, inbound: seq<Frame>, n: nat, x: Bytes, d1: Direction, after: seq<Frame>,
                     xs: seq<Bytes>, d2: Direction, rest: seq<Frame>, ceiling: nat)
    requires n > 0 && ceiling > 0 && ReadStep(d, inbound, ceiling) == Payload(x, d1, after)
    requires ReadMany(d1, after, n - 1, ceiling) == Some((xs, d2, rest))
    ensures ReadMany(d, inbound, n, ceiling) == Some(([x] + xs, d2, rest))
  {
  }

  /** Whatever sequence of payloads one end writes, the other end, starting in the same state, reads the same sequence. */
  lemma {:induction false} MirroredStream(d: Direction, xs: seq<Bytes>, ms: seq<Rekey>, rest: seq<Frame>, ceiling: nat)
    requires |ms| == |xs| && forall i :: 0 <= i < |ms| ==> ValidRekey(ms[i])
    requires ceiling > 0
    ensures var (d', frames) := WriteMany(d, xs, ms, ceiling); ReadMany(d, frames + rest, |xs|, ceiling) == Some((xs, d', rest))
    decreases |xs|
  {
    if xs != [] {
      var (d1, frames) := WriteStep(d, xs[0], ms[0], ceiling);
      var (d2, more) := WriteMany(d1, xs[1..], ms[1..], ceiling);
      assert WriteMany(d, xs, ms, ceiling) == (d2, frames + more);
      assert forall i :: 0 <= i < |ms[1..]| ==> ValidRekey(ms[1..][i]) by {
        forall i | 0 <= i < |ms[1..]| ensures ValidRekey(ms[1..][i]) {
          assert ms[1..][i] == ms[i + 1];
        }
      }
      MirroredStream(d1, xs[1..], ms[1..], rest, ceiling);
      MirroredCons(d, xs[0], ms[0], more, rest, |xs|, xs[1..], d2, ceiling);
      assert [xs[0]] + xs[1..] == xs;
    } else {
      assert [] + rest == rest;
    }
  }

  /** After a rekeying write of 22 bytes or more, the as-written channel rekeys again on the very next write. */
  lemma AsWrittenRekeysAgain(d: Direction, x: Bytes, m: Rekey)
    requires ValidRekey(m) && NeedsRekey(d) && |x| >= AesMaxBytesAsWritten
    ensures NeedsRekey(WriteStep(d, x, m, AesMaxBytesAsWritten).0)
  {
    AsWrittenCeilingIs22(m.budget);
  }

  /** With the intended ceiling, a budget `b` drawn at a rekey lets the key carry `b` more payload bytes before the next rekey. */
  lemma IntendedKeyCarriesBudget(d: Direction, x: Bytes, b: nat)
    requires NeedsRekey(d) && |x| <= b < AesMaxBytes
    ensures var m := Rekey(seq(KeyBytes, _ => 0), seq(BlockSize, _ => 0), LittleEndian8(b));
      !NeedsRekey(WriteStep(d, x, m, AesMaxBytes).0)
  {
    IntendedCeilingReachable(b);
  }

  /**
   * The channel object: both directions and the two frame streams. `inbound`
   * holds the frames on the input stream that have not been read yet,
   * `outbound` every frame written so far. `ceiling` is `AES_MAX_BYTES`:
   * 22 as the source computes it (AesMaxBytesAsWritten), or the intended
   * one mebibyte (AesMaxBytes).
   */
  class EncryptedIO {
    const ceiling: nat
    var readCipher: Cipher
    var writeCipher: Cipher
    var readByteCount: nat
    var writeByteCount: nat
    var nextReadRefresh: nat
    var nextWriteRefresh: nat
    var inbound: seq<Frame>
    var outbound: seq<Frame>

    function ReadDirection(): Direction
      reads this
    {
      Direction(readCipher, readByteCount, nextReadRefresh)
    }

    function WriteDirection(): Direction
      reads this
    {
      Direction(writeCipher, writeByteCount, nextWriteRefresh)
    }

    ghost predicate Valid()
      reads this
    {
      ceiling > 0 && ValidDirection(ReadDirection(), ceiling) && ValidDirection(WriteDirection(), ceiling)
    }

    /**
     * The state after the handshake: the own public key has been written in the
     * clear, the peer's (received by the handshake) keys the write direction,
     * the own private key the read direction; both counts start at twice the
     * ceiling and both refreshes at 0, so the first write and the first read rekey.
     */
    constructor (ownKeyPair: nat, peerKeyPair: nat, frames: seq<Frame>, ceiling: nat)
      requires ceiling > 0
      ensures Valid() && this.ceiling == ceiling
      ensures ReadDirection() == Initial(Rsa(ownKeyPair), ceiling) && WriteDirection() == Initial(Rsa(peerKeyPair), ceiling)
      ensures outbound == [PublicKey(ownKeyPair)] && inbound == frames
    {
      this.ceiling := ceiling;
      readCipher := Rsa(ownKeyPair);
      writeCipher := Rsa(peerKeyPair);
      readByteCount := 2 * ceiling;
      writeByteCount := 2 * ceiling;
      nextReadRefresh := 0;
      nextWriteRefresh := 0;
      outbound := [PublicKey(ownKeyPair)];
      inbound := frames;
    }

    /** `write(x)`, with the random bytes a rekey would draw passed in as `m`. */
    method Write(x: Bytes, m: Rekey)
      requires Valid() && ValidRekey(m)
      modifies this
      ensures Valid()
      ensures WriteDirection() == WriteStep(old(WriteDirection()), x, m, ceiling).0
      ensures outbound == old(outbound) + WriteStep(old(WriteDirection()), x, m, ceiling).1
      ensures ReadDirection() == old(ReadDirection()) && inbound == old(inbound)
    {
      if nextWriteRefresh < writeByteCount {
        var keyFrame := Encrypt(writeCipher, m.key + m.iv).0;
        outbound := outbound + [keyFrame];
        writeCipher := Aes(m.key, m.iv, 0);
        var budgetFrame := Encrypt(writeCipher, m.budget).0;
        writeCipher := Encrypt(writeCipher, m.budget).1;
        outbound := outbound + [budgetFrame];
        writeByteCount := 0;
        nextWriteRefresh := Budget(m.budget, ceiling);
      }
      writeByteCount := writeByteCount + |x|;
      var payload := Encrypt(writeCipher, x).0;
      writeCipher := Encrypt(writeCipher, x).1;
      outbound := outbound + [payload];
    }

    /**
     * `_read_encrypted()`. On success the read direction and the unread frames
     * are those of `ReadStep`; a failure is fatal to the channel, so nothing is
     * promised about the state it leaves.
     */
    method ReadEncrypted() returns (r: ReadOutcome)
      requires Valid()
      modifies this
      ensures r == ReadStep(old(ReadDirection()), old(inbound), ceiling)
      ensures r.Payload? ==> Valid() && ReadDirection() == r.dir && inbound == r.rest
      ensures WriteDirection() == old(WriteDirection()) && outbound == old(outbound)
    {
      if nextReadRefresh < readByteCount {
        if inbound == [] {
          return ReadFailed(EndOfStream);
        }
        var y := inbound[0];
        inbound := inbound[1..];
        var key := Decrypt(readCipher, y);
        if key.None? {
          return ReadFailed(KeyFrameRejected);
        }
        var keyIv := key.value.0;
        var split := if |keyIv| < KeyBytes then |keyIv| else KeyBytes;
        var aes := AesNew(keyIv[..split], keyIv[split..]);
        if aes.None? {
          return ReadFailed(BadKey);
        }
        readCipher := aes.value;
        if inbound == [] {
          return ReadFailed(EndOfStream);
        }
        y := inbound[0];
        inbound := inbound[1..];
        var t := Decrypt(readCipher, y);
        if t.None? {
          return ReadFailed(BudgetFrameRejected);
        }
        readCipher := t.value.1;
        if |t.value.0| != BudgetBytes {
          return ReadFailed(BadBudget);
        }
        readByteCount := 0;
        nextReadRefresh := Budget(t.value.0, ceiling);
      }
      if inbound == [] {
        return ReadFailed(EndOfStream);
      }
      var payload := Decrypt(readCipher, inbound[0]);
      if payload.None? {
        return ReadFailed(PayloadRejected);
      }
      var x := payload.value.0;
      readCipher := payload.value.1;
      inbound := inbound[1..];
      readByteCount := readByteCount + |x|;
      r := Payload(x, ReadDirection(), inbound);
    }
  }
}
