/** adapters/builder.go: adapter dispatch by `Type` tag, and the adapters'
    common `Run` interface. */
module AdapterBuilder {
  import opened Results
  import opened Values
  import opened Streams
  import opened Config
  import opened Library
  import opened CaseAdapter
  import opened MappingAdapter
  import opened CastAdapter
  import opened CryptoAdapter
  import opened NullAdapter

  /** The six adapter kinds `BuildAdapter` can return. The names randomizer
      is kept abstract: its task and name select its per-row function. */
  datatype Adapter =
    | CaseConversion(caseAdapter: CaseConversionAdapter)
    | ConstantMapping(mappingAdapter: ConstantMappingAdapter)
    | CastToDatatype(castAdapter: CastToDatatypeAdapter)
    | CryptoAESCBCZero(cryptoAdapter: CryptoAESCBCZeroAdapter)
    | NamesRandomizer(task: string, adapter: string)
    | NullHandling(nullAdapter: NullHandlingAdapter)

  const CaseConversionTag := "case-conversion-adapter"
  const ConstantMappingTag := "constant-mapping-adapter"
  const CastToDatatypeTag := "cast-to-datatype-adapter"
  const CryptoTag := "crypto-aescbczero-adapter"
  const NamesRandomizerTag := "names-randomizer-adapter"
  const NullHandlingTag := "null-handling-adapter"

  /** The tag each kind is built from. */
  function AdapterTag(a: Adapter): string
  {
    match a
    case CaseConversion(_) => CaseConversionTag
    case ConstantMapping(_) => ConstantMappingTag
    case CastToDatatype(_) => CastToDatatypeTag
    case CryptoAESCBCZero(_) => CryptoTag
    case NamesRandomizer(_, _) => NamesRandomizerTag
    case NullHandling(_) => NullHandlingTag
  }

  /** The six tags, pairwise distinct: each kind has its own. */
  lemma TagsDistinct(a: Adapter, b: Adapter)
    ensures AdapterTag(a) == AdapterTag(b) <==> a.CaseConversion? == b.CaseConversion? && a.ConstantMapping? == b.ConstantMapping? &&
                                                a.CastToDatatype? == b.CastToDatatype? && a.CryptoAESCBCZero? == b.CryptoAESCBCZero? &&
                                                a.NamesRandomizer? == b.NamesRandomizer? && a.NullHandling? == b.NullHandling?
  {
    assert CaseConversionTag[0] == 'c' && ConstantMappingTag[0] == 'c' && CastToDatatypeTag[0] == 'c' && CryptoTag[0] == 'c';
    assert CaseConversionTag[1] == 'a' && ConstantMappingTag[1] == 'o' && CryptoTag[1] == 'r';
    assert CaseConversionTag[2] == 's' && CastToDatatypeTag[2] == 's' && CaseConversionTag[3] == 'e' && CastToDatatypeTag[3] == 't';
    assert NamesRandomizerTag[0] == 'n' && NullHandlingTag[0] == 'n' && NamesRandomizerTag[1] == 'a' && NullHandlingTag[1] == 'u';
  }

  function Wrap<T>(r: Result<T>, kind: T -> Adapter): Result<Adapter>
  {
    match r
    case Err(m) => Err(m)
    case Ok(v) => Ok(kind(v))
  }

  /** `BuildAdapter`: aborts when the adapter has no configuration under the
      task, before any constructor runs; otherwise the first tag test that
      matches picks the constructor, and an unknown tag aborts. The crypto
      and randomizer constructors take no `id`. */
  function BuildAdapter(x: Externals, id: int, cfg: Config, taskName: string, adapterName: string): (r: Result<Adapter>)
    ensures GetAdapterConfig(cfg, taskName, adapterName).Err? ==>
              r == Err("Error getting adapters configuration for task " + taskName + ": " + GetAdapterConfig(cfg, taskName, adapterName).msg)
    ensures r.Ok? ==> GetAdapterConfig(cfg, taskName, adapterName).Ok? &&
                      AdapterTag(r.value) == GetAdapterConfig(cfg, taskName, adapterName).value.tag
    ensures GetAdapterConfig(cfg, taskName, adapterName).Ok? &&
            GetAdapterConfig(cfg, taskName, adapterName).value.tag !in
              {CaseConversionTag, ConstantMappingTag, CastToDatatypeTag, CryptoTag, NamesRandomizerTag, NullHandlingTag} ==>
              r == Err("Invalid adapter middlepoint type " + GetAdapterConfig(cfg, taskName, adapterName).value.tag)
  {
    match GetAdapterConfig(cfg, taskName, adapterName)
    case Err(m) => Err("Error getting adapters configuration for task " + taskName + ": " + m)
    case Ok(ac) =>
      if ac.tag == CaseConversionTag then Wrap(NewCaseConversionAdapter(id, cfg, taskName, adapterName), a => CaseConversion(a))
      else if ac.tag == ConstantMappingTag then Wrap(NewConstantMappingAdapter(x, id, cfg, taskName, adapterName), a => ConstantMapping(a))
      else if ac.tag == CastToDatatypeTag then Wrap(NewCastToDatatypeAdapter(id, cfg, taskName, adapterName), a => CastToDatatype(a))
      else if ac.tag == CryptoTag then Wrap(NewCryptoAESCBCZeroAdapter(cfg, taskName, adapterName), a => CryptoAESCBCZero(a))
      else if ac.tag == NamesRandomizerTag then Wrap(x.newRandomizer(taskName, adapterName), _ => NamesRandomizer(taskName, adapterName))
      else if ac.tag == NullHandlingTag then Wrap(NewNullHandlingAdapter(id, cfg, taskName, adapterName), a => NullHandling(a))
      else Err("Invalid adapter middlepoint type " + ac.tag)
  }

  /** Each known tag hands the arguments to its own constructor: the build
      fails exactly when that constructor does, and otherwise holds the
      constructed adapter. */
  lemma BuildAdapterDispatch(x: Externals, id: int, cfg: Config, taskName: string, adapterName: string)
    requires GetAdapterConfig(cfg, taskName, adapterName).Ok?
    ensures var tag, r := GetAdapterConfig(cfg, taskName, adapterName).value.tag, BuildAdapter(x, id, cfg, taskName, adapterName);
            (tag == CaseConversionTag ==> r == Wrap(NewCaseConversionAdapter(id, cfg, taskName, adapterName), a => CaseConversion(a))) &&
            (tag == ConstantMappingTag ==> r == Wrap(NewConstantMappingAdapter(x, id, cfg, taskName, adapterName), a => ConstantMapping(a))) &&
            (tag == CastToDatatypeTag ==> r == Wrap(NewCastToDatatypeAdapter(id, cfg, taskName, adapterName), a => CastToDatatype(a))) &&
            (tag == CryptoTag ==> r == Wrap(NewCryptoAESCBCZeroAdapter(cfg, taskName, adapterName), a => CryptoAESCBCZero(a))) &&
            (tag == NamesRandomizerTag ==> r == Wrap(x.newRandomizer(taskName, adapterName), _ => NamesRandomizer(taskName, adapterName))) &&
            (tag == NullHandlingTag ==> r == Wrap(NewNullHandlingAdapter(id, cfg, taskName, adapterName), a => NullHandling(a)))
  {
  }

  /** The per-row function behind each adapter's `Run`. */
  function AdapterFn(x: Externals, a: Adapter): Row -> Result<Row>
  {
    match a
    case CaseConversion(c) => CaseAdapter.RowFn(c)
    case ConstantMapping(m) => MappingAdapter.RowFn(m)
    case CastToDatatype(t) => CastAdapter.RowFn(x, t)
    case CryptoAESCBCZero(k) => CryptoAdapter.RowFn(x, k)
    case NamesRandomizer(task, name) => row => x.randomize(task, name, row)
    case NullHandling(n) => NullAdapter.RowFn(n)
  }

  /** `adapter.Run(&wg, pipe)` through the `core.Adapter` interface. */
  method RunAdapter(x: Externals, a: Adapter, input: Stream) returns (out: Stream)
    ensures out == Pass(AdapterFn(x, a), input)
  {
    match a
    case CaseConversion(c) => out := CaseAdapter.Run(c, input);
    case ConstantMapping(m) => out := MappingAdapter.Run(m, input);
    case CastToDatatype(t) => out := CastAdapter.Run(x, t, input);
    case CryptoAESCBCZero(k) => out := CryptoAdapter.Run(x, k, input);
    case NamesRandomizer(_, _) => out := Pass(AdapterFn(x, a), input);
    case NullHandling(n) => out := NullAdapter.Run(n, input);
  }
}
