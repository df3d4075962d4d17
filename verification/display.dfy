/** The per-chip variant descriptor (`DisplayVariant`): constant geometry, the two
    constants that have defaults, and the chip's power-up command sequence. */
module Display {
  import opened Transport
  import opened Commands

  /** A chip variant. `columnOffset` and `largePageAddress` default to 0 and false, as the
      associated constants of the trait do; `init` is the ordered command sequence of the
      variant's `init_column_mode`. */
  datatype Variant = Variant(
    width: uint8,
    height: uint8,
    init: seq<Command>,
    columnOffset: uint8 := 0,
    largePageAddress: bool := false)
  {
    /** `dimensions()`: the native, unrotated (width, height). */
    function Dimensions(): (uint8, uint8)
    {
      (width, height)
    }
  }

  /** A descriptor that overrides neither constant keeps the defaults: no column offset,
      and the packed page-address command. */
  lemma Defaults(width: uint8, height: uint8, init: seq<Command>)
    ensures Variant(width, height, init).columnOffset == 0
    ensures !Variant(width, height, init).largePageAddress
    ensures Variant(width, height, init).Dimensions() == (width, height)
  {
  }

  /** `DV::init_column_mode(iface)`: sends the variant's sequence in order, stopping at
      the first failing send and returning its error. It takes only the interface: the
      rotation is not part of it. */
  method InitColumnMode(v: Variant, iface: Bus) returns (r: Outcome)
    modifies iface
    ensures iface.Transmitted(Encoded(v.init), r)
  {
    r := SendAll(v.init, iface);
  }
}
