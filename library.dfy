/** The library code the core calls but this model does not look inside:
    UTF-8 conversion, the AES block cipher in CBC mode, base64, float
    parsing, time formatting, the mapping-file loader and the names
    randomizer. Each is a parameter of the model; the properties the core
    relies on are stated as laws in the lemmas that need them. */
module Library {
  import opened Results
  import opened Values

  datatype Externals = Externals(
    /** `[]byte(s)`. */
    utf8: string -> seq<byte>,
    /** `string(b)`. */
    fromBytes: seq<byte> -> string,
    /** `CryptBlocks` of `cipher.NewCBCEncrypter(aes.NewCipher(key), iv)`. */
    cbcEncrypt: (seq<byte>, seq<byte>, seq<byte>) -> seq<byte>,
    /** `CryptBlocks` of `cipher.NewCBCDecrypter(aes.NewCipher(key), iv)`. */
    cbcDecrypt: (seq<byte>, seq<byte>, seq<byte>) -> seq<byte>,
    /** `base64.StdEncoding.EncodeToString`. */
    base64Encode: seq<byte> -> string,
    /** `base64.StdEncoding.DecodeString`; `None` is its error. */
    base64Decode: string -> Option<seq<byte>>,
    /** `strconv.ParseFloat(s, 64)`, giving the `float64` in its printed
        form; `None` is its error. */
    parseFloat: string -> Option<string>,
    /** `time.Parse(inLayout, s)` then `Format(outLayout)`. */
    formatDatetime: (string, string, string) -> string,
    /** `getMapData(ResolveFilename(Dir(configFile), relative), mapName)`;
        `None` is one of its fatal errors. */
    loadMapData: (string, string, string) -> Option<map<string, string>>,
    /** What `NewNamesRandomizerAdapter` of a task's adapter can fail on:
        the `"random"` argument that is not a map, and the three names files
        that `getNamesData` opens. `Err` is the first such fatal error. */
    newRandomizer: (string, string) -> Result<()>,
    /** One row through the names randomizer of a task's adapter. */
    randomize: (string, string, Row) -> Result<Row>)
}
