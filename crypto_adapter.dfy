/** adapters/crypto.go: the AES/CBC/zero-padding adapter. The block cipher,
    base64 and the string/byte conversions are library code, taken from
    `Externals`; what is modelled here is the constructor's validation, the
    zero padding and unpadding around the cipher, the error paths and the
    string-only field loop. */
module CryptoAdapter {
  import opened Results
  import opened Text
  import opened Values
  import opened Rows
  import opened Streams
  import opened Config
  import opened Library

  // ---------------------------------------------------------------------
  // Hexadecimal key and IV (`hex.DecodeString`)

  predicate IsHexDigit(c: char)
  {
    '0' <= c <= '9' || 'a' <= c <= 'f' || 'A' <= c <= 'F'
  }

  function HexValue(c: char): (r: nat)
    requires IsHexDigit(c)
    ensures r < 16
  {
    if '0' <= c <= '9' then c as int - '0' as int
    else if 'a' <= c <= 'f' then c as int - 'a' as int + 10
    else c as int - 'A' as int + 10
  }

  /** `hex.DecodeString`: an error for an odd length or any character that
      is not a hexadecimal digit (either case); otherwise one byte per pair
      of digits, high digit first. */
  function HexDecode(s: string): (r: Option<seq<byte>>)
    ensures r.Some? <==> |s| % 2 == 0 && forall i :: 0 <= i < |s| ==> IsHexDigit(s[i])
    ensures r.Some? ==> 2 * |r.value| == |s|
  {
    if |s| % 2 != 0 || exists i :: 0 <= i < |s| && !IsHexDigit(s[i]) then None
    else Some(seq(|s| / 2, i requires 0 <= i < |s| / 2 => HexValue(s[2 * i]) * 16 + HexValue(s[2 * i + 1])))
  }

  function HexDigit(d: nat): (c: char)
    requires d < 16
    ensures IsHexDigit(c) && HexValue(c) == d
  {
    if d < 10 then ('0' as int + d) as char else ('a' as int + d - 10) as char
  }

  /** `hex.EncodeToString`, the inverse that produces the configured keys. */
  function HexEncode(b: seq<byte>): (s: string)
    ensures |s| == 2 * |b|
    ensures forall i :: 0 <= i < |s| ==> IsHexDigit(s[i])
  {
    seq(2 * |b|, i requires 0 <= i < 2 * |b| => if i % 2 == 0 then HexDigit(b[i / 2] / 16) else HexDigit(b[i / 2] % 16))
  }

  /** The two digits `HexEncode` writes for byte `i`. */
  lemma HexEncodeAt(b: seq<byte>, i: nat)
    requires i < |b|
    ensures HexEncode(b)[2 * i] == HexDigit(b[i] / 16)
    ensures HexEncode(b)[2 * i + 1] == HexDigit(b[i] % 16)
  {
    assert (2 * i) % 2 == 0 && (2 * i) / 2 == i;
    assert (2 * i + 1) % 2 == 1 && (2 * i + 1) / 2 == i;
  }

  /** A byte's high and low digits give the byte back. */
  lemma HexDigitsOfByte(v: byte)
    ensures HexValue(HexDigit(v / 16)) * 16 + HexValue(HexDigit(v % 16)) == v
  {
  }

  lemma HexRoundTrip(b: seq<byte>)
    ensures HexDecode(HexEncode(b)) == Some(b)
  {
    var s := HexEncode(b);
    var d := HexDecode(s).value;
    assert |d| == |b|;
    forall i | 0 <= i < |b| ensures d[i] == b[i] {
      HexEncodeAt(b, i);
      HexDigitsOfByte(b[i]);
    }
    assert d == b;
  }

  // ---------------------------------------------------------------------
  // The adapter and its constructor

  datatype CryptoAESCBCZeroAdapter = CryptoAESCBCZeroAdapter(
    task: string, adapter: string, fields: seq<string>, direction: string,
    key: seq<byte>, iv: seq<byte>)

  /** `NewCryptoAESCBCZeroAdapter`: `direction`, `key` and `iv` must be
      strings (a failed type assertion aborts); the lowered direction must
      be "encrypt" or "decrypt"; key and IV must be valid hexadecimal. */
  function NewCryptoAESCBCZeroAdapter(cfg: Config, taskName: string, adapterName: string): (r: Result<CryptoAESCBCZeroAdapter>)
    ensures r.Ok? <==>
            GetAdapterConfig(cfg, taskName, adapterName).Ok? &&
            var args := GetAdapterConfig(cfg, taskName, adapterName).value.arguments;
            ArgFields(args).Ok? &&
            ArgAsString(args, "direction").Ok? && ToLower(ArgAsString(args, "direction").value) in {"encrypt", "decrypt"} &&
            ArgAsString(args, "key").Ok? && HexDecode(ArgAsString(args, "key").value).Some? &&
            ArgAsString(args, "iv").Ok? && HexDecode(ArgAsString(args, "iv").value).Some?
    ensures r.Ok? ==>
            var args := cfg.tasks[taskName].adapters[adapterName].arguments;
            r.value.task == taskName && r.value.adapter == adapterName &&
            Ok(r.value.fields) == ArgFields(args) &&
            r.value.direction == ToLower(args["direction"].value.s) &&
            Some(r.value.key) == HexDecode(args["key"].value.s) &&
            Some(r.value.iv) == HexDecode(args["iv"].value.s)
  {
    match GetAdapterConfig(cfg, taskName, adapterName)
    case Err(m) => Err(m)
    case Ok(ac) =>
      var args := ac.arguments;
      match ArgFields(args)
      case Err(m) => Err(m)
      case Ok(fields) =>
        match ArgAsString(args, "direction")
        case Err(m) => Err(m)
        case Ok(d) =>
          var direction := ToLower(d);
          if direction != "encrypt" && direction != "decrypt" then
            Err("Invalid identifier for 'direction' parameter: " + direction)
          else
            match ArgAsString(args, "key")
            case Err(m) => Err(m)
            case Ok(hexKey) =>
              match HexDecode(hexKey)
              case None => Err("Invalid hexadecimal string for 'key' parameter")
              case Some(key) =>
                match ArgAsString(args, "iv")
                case Err(m) => Err(m)
                case Ok(hexIV) =>
                  match HexDecode(hexIV)
                  case None => Err("Invalid hexadecimal string for 'iv' parameter")
                  case Some(iv) => Ok(CryptoAESCBCZeroAdapter(taskName, adapterName, fields, direction, key, iv))
  }

  // ---------------------------------------------------------------------
  // Zero padding

  /** `aes.BlockSize`. */
  const BlockSize: nat := 16

  /** The key lengths `aes.NewCipher` accepts: AES-128, AES-192, AES-256. */
  predicate ValidKey(key: seq<byte>)
  {
    |key| == 16 || |key| == 24 || |key| == 32
  }

  /** The number of zero bytes appended: none when the length is already a
      multiple of the block size. */
  function PadCount(n: nat, bs: nat): (r: nat)
    requires bs > 0
    ensures r < bs && (n + r) % bs == 0
  {
    var padding := bs - n % bs;
    FillsBlocks(n, bs);
    if padding == bs then 0 else padding
  }

  lemma FillsBlocks(n: nat, bs: nat)
    requires bs > 0
    ensures n % bs == 0 || (n + (bs - n % bs)) % bs == 0
  {
    var q, rem := n / bs, n % bs;
    assert n == bs * q + rem;
    if rem != 0 {
      assert n + (bs - rem) == bs * (q + 1);
      MultipleMod(bs, q + 1);
    }
  }

  lemma MultipleMod(bs: nat, k: nat)
    requires bs > 0
    ensures (bs * k) % bs == 0
  {
    var a := bs * k;
    var d := k - a / bs;
    assert a == bs * (a / bs) + a % bs;
    assert bs * d == a % bs;
  }

  /** The plaintext followed by the fewest zero bytes that fill its last block. */
  function ZeroPad(p: seq<byte>, bs: nat): (r: seq<byte>)
    requires bs > 0
    ensures |r| % bs == 0 && |p| <= |r| < |p| + bs
    ensures r[..|p|] == p
    ensures forall i :: |p| <= i < |r| ==> r[i] == 0
  {
    p + seq(PadCount(|p|, bs), _ => 0)
  }

  /** `bytes.IndexByte(b, c)`: the first position holding `c`, or -1. */
  function IndexByte(b: seq<byte>, c: byte): (r: int)
    ensures -1 <= r < |b|
    ensures r == -1 <==> c !in b
    ensures r >= 0 ==> b[r] == c && c !in b[..r]
  {
    if b == [] then -1
    else if b[0] == c then 0
    else
      var rest := IndexByte(b[1..], c);
      assert b == [b[0]] + b[1..];
      if rest == -1 then -1
      else
        assert b[..rest + 1] == [b[0]] + b[1..][..rest];
        rest + 1
  }

  /** The bytes before the first zero byte, or all of them. */
  function ZeroUnpad(b: seq<byte>): (r: seq<byte>)
    ensures |r| <= |b| && r == b[..|r|]
    ensures 0 !in r
    ensures |r| < |b| ==> b[|r|] == 0
  {
    var zeropos := IndexByte(b, 0);
    if zeropos < 0 then b else b[..zeropos]
  }

  /** Unpadding undoes padding exactly when the plaintext holds no zero
      byte: otherwise the plaintext is cut at its first zero. */
  lemma UnpadPad(p: seq<byte>, bs: nat)
    requires bs > 0
    ensures ZeroUnpad(ZeroPad(p, bs)) == p <==> 0 !in p
  {
    var padded := ZeroPad(p, bs);
    var u := ZeroUnpad(padded);
    if 0 !in p {
      assert forall i :: 0 <= i < |p| ==> padded[i] == p[i];
      assert |p| < |padded| ==> padded[|p|] == 0;
      assert |u| == |p|;
    }
  }

  // ---------------------------------------------------------------------
  // Encryption and decryption

  /** `encryptAESCBCWithZeropad` on the plaintext's bytes: a bad key length
      is an error, a bad IV length a panic; otherwise the padded plaintext
      is encrypted and base64 encoded. */
  function EncryptBytes(x: Externals, key: seq<byte>, iv: seq<byte>, plain: seq<byte>): (r: Result<string>)
    ensures r.Ok? <==> ValidKey(key) && |iv| == BlockSize
  {
    if !ValidKey(key) then Err("crypto/aes: invalid key size")
    else if |iv| != BlockSize then Err("cipher.NewCBCEncrypter: IV length must equal block size")
    else Ok(x.base64Encode(x.cbcEncrypt(key, iv, ZeroPad(plain, BlockSize))))
  }

  /** `decryptAESCBCZeropad` up to the final string conversion: a bad key
      length or bad base64 is an error; a bad IV length, or a decoded text
      that is not whole blocks, is a panic; otherwise the decrypted bytes
      up to the first zero byte. */
  function DecryptBytes(x: Externals, key: seq<byte>, iv: seq<byte>, text: string): (r: Result<seq<byte>>)
    ensures r.Ok? <==> ValidKey(key) && x.base64Decode(text).Some? && |iv| == BlockSize &&
                       |x.base64Decode(text).value| % BlockSize == 0
    ensures r.Ok? ==> 0 !in r.value
  {
    if !ValidKey(key) then Err("crypto/aes: invalid key size")
    else match x.base64Decode(text)
      case None => Err("illegal base64 data")
      case Some(decoded) =>
        if |iv| != BlockSize then Err("cipher.NewCBCDecrypter: IV length must equal block size")
        else if |decoded| % BlockSize != 0 then Err("crypto/cipher: input not full blocks")
        else Ok(ZeroUnpad(x.cbcDecrypt(key, iv, decoded)))
  }

  /** base64 decoding undoes encoding, base64 text holds no NUL character
      (the standard alphabet has none), and CBC decryption with the same key
      and IV undoes encryption of whole blocks and keeps their length. */
  ghost predicate CipherLaws(x: Externals)
  {
    (forall b :: x.base64Decode(x.base64Encode(b)) == Some(b)) &&
    (forall b :: '\0' !in x.base64Encode(b)) &&
    (forall key, iv, p :: ValidKey(key) && |iv| == BlockSize && |p| % BlockSize == 0 ==>
       |x.cbcEncrypt(key, iv, p)| == |p| && x.cbcDecrypt(key, iv, x.cbcEncrypt(key, iv, p)) == p)
  }

  /** Converting a string to bytes and back gives the string, and the bytes
      hold a zero exactly when the string holds a NUL character. */
  ghost predicate TextLaws(x: Externals)
  {
    (forall s :: x.fromBytes(x.utf8(s)) == s) &&
    (forall s :: 0 in x.utf8(s) <==> '\0' in s)
  }

  /** With a valid key and IV, decryption undoes encryption exactly when the
      plaintext holds no zero byte. */
  lemma BytesRoundTrip(x: Externals, key: seq<byte>, iv: seq<byte>, p: seq<byte>)
    requires CipherLaws(x) && ValidKey(key) && |iv| == BlockSize
    ensures EncryptBytes(x, key, iv, p).Ok?
    ensures DecryptBytes(x, key, iv, EncryptBytes(x, key, iv, p).value) == Ok(ZeroUnpad(ZeroPad(p, BlockSize)))
    ensures DecryptBytes(x, key, iv, EncryptBytes(x, key, iv, p).value) == Ok(p) <==> 0 !in p
  {
    var padded := ZeroPad(p, BlockSize);
    var c := x.cbcEncrypt(key, iv, padded);
    assert x.base64Decode(x.base64Encode(c)) == Some(c);
    assert |c| == |padded| && x.cbcDecrypt(key, iv, c) == padded;
    UnpadPad(p, BlockSize);
  }

  /** What the adapter does to one string value. */
  function Crypt(x: Externals, adp: CryptoAESCBCZeroAdapter, s: string): (r: Option<string>)
    ensures adp.direction != "decrypt" ==> (r.Some? <==> ValidKey(adp.key) && |adp.iv| == BlockSize)
    ensures adp.direction == "decrypt" ==>
              (r.Some? <==> ValidKey(adp.key) && x.base64Decode(s).Some? && |adp.iv| == BlockSize &&
                            |x.base64Decode(s).value| % BlockSize == 0)
  {
    if adp.direction == "decrypt" then
      match DecryptBytes(x, adp.key, adp.iv, s)
      case Err(_) => None
      case Ok(b) => Some(x.fromBytes(b))
    else
      match EncryptBytes(x, adp.key, adp.iv, x.utf8(s))
      case Err(_) => None
      case Ok(c) => Some(c)
  }

  function CryptUpdate(x: Externals, adp: CryptoAESCBCZeroAdapter): Value -> Option<Value>
  {
    v => match Crypt(x, adp, Show(v))
      case None => None
      case Some(s) => Some(Str(s))
  }

  /** The body of `Run`'s row loop: only string-valued listed fields are
      transformed. */
  function CryptRow(x: Externals, adp: CryptoAESCBCZeroAdapter, row: Row): (r: Result<Row>)
    ensures r.Ok? ==> r.value.Keys == row.Keys
    ensures r.Ok? ==> forall k :: k in row && k !in adp.fields ==> r.value[k] == row[k]
  {
    UpdateFields(CryptUpdate(x, adp), SkipNonString, adp.fields, row)
  }

  function RowFn(x: Externals, adp: CryptoAESCBCZeroAdapter): Row -> Result<Row>
  {
    row => CryptRow(x, adp, row)
  }

  method ProcessRow(x: Externals, adp: CryptoAESCBCZeroAdapter, row0: Row) returns (r: Result<Row>)
    ensures r == CryptRow(x, adp, row0)
  {
    var row := row0;
    for i := 0 to |adp.fields|
      invariant CryptRow(x, adp, row0) == UpdateFields(CryptUpdate(x, adp), SkipNonString, adp.fields[i..], row)
    {
      var field := adp.fields[i];
      assert adp.fields[i..][0] == field && adp.fields[i..][1..] == adp.fields[i + 1..];
      if field !in row || !row[field].Str? {
        continue;
      }
      var rawValue := row[field].s;
      ghost var crypted := CryptUpdate(x, adp)(row[field]);
      if adp.direction == "decrypt" {
        var plain := DecryptBytes(x, adp.key, adp.iv, rawValue);
        if plain.Err? {
          assert crypted.None?;
          return Err("cannot convert field " + field);
        }
        assert crypted == Some(Str(x.fromBytes(plain.value)));
        row := row[field := Str(x.fromBytes(plain.value))];
      } else {
        var cipher := EncryptBytes(x, adp.key, adp.iv, x.utf8(rawValue));
        if cipher.Err? {
          assert crypted.None?;
          return Err("cannot convert field " + field);
        }
        assert crypted == Some(Str(cipher.value));
        row := row[field := Str(cipher.value)];
      }
    }
    return Ok(row);
  }

  method Run(x: Externals, adp: CryptoAESCBCZeroAdapter, input: Stream) returns (out: Stream)
    ensures out == Pass(RowFn(x, adp), input)
  {
    var sent: seq<Row> := [];
    for i := 0 to |input.rows|
      invariant Apply(RowFn(x, adp), input.rows[..i]) == Progress(sent, false)
    {
      var r := ProcessRow(x, adp, input.rows[i]);
      if r.Err? {
        ApplyStopsAt(RowFn(x, adp), input.rows, i, sent);
        return Stream(sent, false);
      }
      ApplyExtend(RowFn(x, adp), input.rows, i, sent, r.value);
      sent := sent + [r.value];
    }
    assert input.rows[..|input.rows|] == input.rows;
    return Stream(sent, input.closed);
  }

  /** Encryption fails on a string exactly when the key or IV length is
      wrong, so with a good key and IV an encrypting adapter never aborts;
      non-string fields are never touched. */
  lemma EncryptRowSpec(x: Externals, adp: CryptoAESCBCZeroAdapter, row: Row)
    requires adp.direction == "encrypt" && ValidKey(adp.key) && |adp.iv| == BlockSize
    ensures CryptRow(x, adp, row).Ok?
    ensures forall k :: k in row && !row[k].Str? ==> CryptRow(x, adp, row).value[k] == row[k]
  {
    UpdateFieldsTotal(CryptUpdate(x, adp), SkipNonString, adp.fields, row);
    UpdateFieldsKeepsSkipped(CryptUpdate(x, adp), SkipNonString, adp.fields, row);
  }

  /** One string value through an encrypting and then a decrypting
      adapter with the same key and IV. */
  lemma StringRoundTrip(x: Externals, enc: CryptoAESCBCZeroAdapter, dec: CryptoAESCBCZeroAdapter, s: string)
    requires CipherLaws(x) && TextLaws(x)
    requires enc.direction == "encrypt" && dec.direction == "decrypt"
    requires enc.key == dec.key && enc.iv == dec.iv
    requires ValidKey(enc.key) && |enc.iv| == BlockSize && '\0' !in s
    ensures Crypt(x, enc, s).Some?
    ensures Crypt(x, dec, Crypt(x, enc, s).value) == Some(s)
  {
    assert 0 !in x.utf8(s);
    BytesRoundTrip(x, enc.key, enc.iv, x.utf8(s));
  }

  /** One field listed `n` times: the encrypting adapter visits it `n`
      times and the decrypting adapter `n` times more, which restores it;
      every encrypted value is base64 text and so holds no NUL. */
  lemma {:induction false} IterateRoundTrip(x: Externals, enc: CryptoAESCBCZeroAdapter, dec: CryptoAESCBCZeroAdapter, n: nat, v: Value)
    requires CipherLaws(x) && TextLaws(x)
    requires enc.direction == "encrypt" && dec.direction == "decrypt"
    requires enc.key == dec.key && enc.iv == dec.iv
    requires ValidKey(enc.key) && |enc.iv| == BlockSize
    requires v.Str? ==> '\0' !in v.s
    ensures Iterate(CryptUpdate(x, enc), SkipNonString, n, v).Some?
    ensures var u := Iterate(CryptUpdate(x, enc), SkipNonString, n, v).value;
            (u.Str? ==> '\0' !in u.s) && Iterate(CryptUpdate(x, dec), SkipNonString, n, u) == Some(v)
    decreases n
  {
    if n > 0 {
      var E, D := CryptUpdate(x, enc), CryptUpdate(x, dec);
      IterateRoundTrip(x, enc, dec, n - 1, v);
      var u := Iterate(E, SkipNonString, n - 1, v).value;
      IterateSnoc(E, SkipNonString, n - 1, v);
      if u.Str? {
        StringRoundTrip(x, enc, dec, u.s);
        assert Step(D, SkipNonString, Step(E, SkipNonString, u).value) == Some(u);
      }
    }
  }

  /** A decrypting adapter with the same key, IV and fields restores every
      row the encrypting adapter produced, provided no listed string field
      holds a NUL character. A field listed twice is encrypted twice and
      decrypted twice. */
  lemma RowRoundTrip(x: Externals, enc: CryptoAESCBCZeroAdapter, dec: CryptoAESCBCZeroAdapter, row: Row)
    requires CipherLaws(x) && TextLaws(x)
    requires enc.direction == "encrypt" && dec.direction == "decrypt"
    requires enc.key == dec.key && enc.iv == dec.iv && enc.fields == dec.fields
    requires ValidKey(enc.key) && |enc.iv| == BlockSize
    requires forall k :: k in row && k in enc.fields && row[k].Str? ==> '\0' !in row[k].s
    ensures CryptRow(x, enc, row).Ok?
    ensures CryptRow(x, dec, CryptRow(x, enc, row).value) == Ok(row)
  {
    var E, D, fields := CryptUpdate(x, enc), CryptUpdate(x, dec), enc.fields;
    forall k | k in row
      ensures Iterate(E, SkipNonString, Count(fields, k), row[k]).Some?
      ensures Iterate(D, SkipNonString, Count(fields, k), Iterate(E, SkipNonString, Count(fields, k), row[k]).value) == Some(row[k])
    {
      CountPositive(fields, k);
      if k in fields {
        IterateRoundTrip(x, enc, dec, Count(fields, k), row[k]);
      }
    }
    UpdateFieldsInverse(E, D, SkipNonString, fields, row);
  }
}
