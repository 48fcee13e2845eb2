/** The immutable-sampler naming convention of `create_descriptor_set_layouts`:
    a SAMPLER binding must be named `sampler_<filter><mipmap><address>`, where
    filter and mipmap are `n` (nearest) or `l` (linear) and address is one of
    `r` (repeat), `mr` (mirrored repeat), `c` (clamp to edge) or `cb` (clamp to
    border). */
module SamplerName {
  import opened Wrappers
  import opened Vk

  /** The request handed to the device's sampler cache (`SamplerDesc`). */
  datatype SamplerDesc = SamplerDesc(
    texelFilter: Filter,
    mipmapMode: SamplerMipmapMode,
    addressMode: SamplerAddressMode)

  /** Which check rejected a name: the prefix test or one of the three
      `panic!`s. Slicing an empty remainder also panics in the source; that
      case is reported as the code that was missing. */
  datatype SamplerNameError = MissingPrefix | BadTexelFilter | BadMipmapMode | BadAddressMode

  const PREFIX: string := "sampler_"

  predicate HasPrefix(name: string) {
    |PREFIX| <= |name| && name[..|PREFIX|] == PREFIX
  }

  function FilterOfCode(c: char): Option<Filter> {
    if c == 'n' then Some(Nearest)
    else if c == 'l' then Some(Linear)
    else None
  }

  function MipmapModeOfCode(c: char): Option<SamplerMipmapMode> {
    if c == 'n' then Some(MipmapNearest)
    else if c == 'l' then Some(MipmapLinear)
    else None
  }

  function AddressModeOfCode(code: string): Option<SamplerAddressMode> {
    if code == "r" then Some(Repeat)
    else if code == "mr" then Some(MirroredRepeat)
    else if code == "c" then Some(ClampToEdge)
    else if code == "cb" then Some(ClampToBorder)
    else None
  }

  function FilterCode(f: Filter): char {
    match f
    case Nearest => 'n'
    case Linear => 'l'
  }

  function MipmapModeCode(m: SamplerMipmapMode): char {
    match m
    case MipmapNearest => 'n'
    case MipmapLinear => 'l'
  }

  function AddressModeCode(a: SamplerAddressMode): string {
    match a
    case Repeat => "r"
    case MirroredRepeat => "mr"
    case ClampToEdge => "c"
    case ClampToBorder => "cb"
  }

  /** Strip the prefix, read one filter character, one mipmap character, and
      require the whole remainder to be an address code. */
  function DecodeSamplerName(name: string): (r: Result<SamplerDesc, SamplerNameError>)
    ensures r == Failure(MissingPrefix) <==> !HasPrefix(name)
    ensures r.Success? ==> name == SamplerNameOf(r.value)
  {
    if !HasPrefix(name) then Failure(MissingPrefix)
    else
      var spec := name[|PREFIX|..];
      if |spec| == 0 || FilterOfCode(spec[0]).None? then Failure(BadTexelFilter)
      else
        var rest := spec[1..];
        if |rest| == 0 || MipmapModeOfCode(rest[0]).None? then Failure(BadMipmapMode)
        else
          match AddressModeOfCode(rest[1..])
          case None => Failure(BadAddressMode)
          case Some(address) =>
            var d := SamplerDesc(FilterOfCode(spec[0]).value, MipmapModeOfCode(rest[0]).value, address);
            assert name == PREFIX + spec;
            assert spec == [spec[0], rest[0]] + rest[1..];
            Success(d)
  }

  /** The name a shader author writes to request sampler `d`. */
  function SamplerNameOf(d: SamplerDesc): string {
    PREFIX + [FilterCode(d.texelFilter), MipmapModeCode(d.mipmapMode)] + AddressModeCode(d.addressMode)
  }

  /** Decoding the name of any of the 16 sampler requests gives it back. */
  lemma DecodeEncodeRoundTrip(d: SamplerDesc)
    ensures DecodeSamplerName(SamplerNameOf(d)) == Success(d)
  {
  }

  /** A name is accepted exactly when it is the encoding of some sampler. */
  lemma AcceptedIffEncoding(name: string)
    ensures DecodeSamplerName(name).Success? <==> exists d :: name == SamplerNameOf(d)
  {
  }

  /** Distinct sampler requests never share a name. */
  lemma SamplerNameInjective(d1: SamplerDesc, d2: SamplerDesc)
    ensures SamplerNameOf(d1) == SamplerNameOf(d2) ==> d1 == d2
  {
    if SamplerNameOf(d1) == SamplerNameOf(d2) {
      DecodeEncodeRoundTrip(d1);
      DecodeEncodeRoundTrip(d2);
    }
  }

  /** The accepted names spelled out: the prefix, two characters from
      {n, l}, and then exactly one of the four address codes. */
  lemma AcceptedNamesSpelledOut(name: string)
    ensures DecodeSamplerName(name).Success? <==>
      && HasPrefix(name)
      && |name| >= |PREFIX| + 2
      && name[|PREFIX|] in {'n', 'l'}
      && name[|PREFIX| + 1] in {'n', 'l'}
      && name[|PREFIX| + 2..] in {"r", "mr", "c", "cb"}
  {
  }

  /** The failure reported for each kind of malformed name, in the order the
      source checks them. */
  lemma DecodeRejects(name: string)
    ensures HasPrefix(name) && (|name| == |PREFIX| || name[|PREFIX|] !in {'n', 'l'})
      ==> DecodeSamplerName(name) == Failure(BadTexelFilter)
    ensures HasPrefix(name) && |name| > |PREFIX| && name[|PREFIX|] in {'n', 'l'}
      && (|name| == |PREFIX| + 1 || name[|PREFIX| + 1] !in {'n', 'l'})
      ==> DecodeSamplerName(name) == Failure(BadMipmapMode)
    ensures HasPrefix(name) && |name| >= |PREFIX| + 2 && name[|PREFIX|] in {'n', 'l'}
      && name[|PREFIX| + 1] in {'n', 'l'} && name[|PREFIX| + 2..] !in {"r", "mr", "c", "cb"}
      ==> DecodeSamplerName(name) == Failure(BadAddressMode)
  {
  }

  /** `sampler_llc` asks for linear filtering, linear mipmaps and
      clamp-to-edge addressing. */
  lemma DecodeLinearLinearClamp()
    ensures DecodeSamplerName("sampler_llc") == Success(SamplerDesc(Linear, MipmapLinear, ClampToEdge))
  {
  }
}
