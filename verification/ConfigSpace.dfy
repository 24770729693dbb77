/** A PCI function's configuration header as its bytes are laid out, and what the
    walk in `src/connectx.rs` makes of it. */
module ConfigSpace {
  import opened Bytes
  import opened LittleEndian
  import opened Connectx

  /** A function there is: its vendor and device, the layout of its header, whether
      it is one of several, and the bus behind it if it is a bridge. */
  datatype Card = Card(vendor: nat, device: nat, layout: nat, several: bool, secondary: Bus)
  {
    predicate Ok() {
      0 < vendor < 0xFFFF && device < 0x1_0000 && layout < 0x80
    }
  }

  /** A header with this in it, whatever its other bytes are (section 6.1 of the PCI
      Local Bus Specification, and section 3.2 of the PCI-to-PCI Bridge one). */
  predicate HasCard(header: seq<byte>, x: Card) {
    && x.Ok() && |header| == 64
    && Holds(header, 0x00, Two(x.vendor)) && Holds(header, 0x02, Two(x.device))
    && header[0x0E] as nat == x.layout + (if x.several then 0x80 else 0)
    && header[0x19] as nat == x.secondary
  }

  /** The function's registers are its header's bytes; where there is none they are
      all ones. */
  ghost predicate Shows(read: Space, bus: Bus, dev: nat, fun: nat, x: Option<Card>) {
    match x
    case None => read(Reg(bus, dev, fun, 0)) == Some(0xFFFF_FFFF)
    case Some(card) => exists header :: HasCard(header, card) && ReadsAs(read, bus, dev, fun, header)
  }

  ghost predicate ReadsAs(read: Space, bus: Bus, dev: nat, fun: nat, header: seq<byte>) {
    && |header| == 64
    && forall r :: r == 0x00 || r == 0x0C || r == 0x18 ==> read(Reg(bus, dev, fun, r)) == Some(Le32(header, r))
  }

  /** The walk finds the identity that was written. */
  lemma IdIsRead(read: Space, bus: Bus, dev: nat, fun: nat, x: Card)
    requires Shows(read, bus, dev, fun, Some(x))
    ensures var id := Id(read, bus, dev, fun);
            id.Some? && id.value % 0x1_0000 == x.vendor && id.value / 0x1_0000 == x.device && !Nobody(id.value)
  {
    hide Holds, Two, Le16;
    var header :| HasCard(header, x) && ReadsAs(read, bus, dev, fun, header);
    TwoReads(header, 0x00, x.vendor);
    TwoReads(header, 0x02, x.device);
  }

  lemma HeaderIsRead(read: Space, bus: Bus, dev: nat, fun: nat, x: Card)
    requires Shows(read, bus, dev, fun, Some(x))
    ensures Header(read, bus, dev, fun) == x.layout + if x.several then 0x80 else 0
    ensures Secondary(read, bus, dev, fun) == if x.layout == 1 && x.secondary != 0 then Some(x.secondary) else None
  {
    hide Holds, Two, Le32;
    var h :| HasCard(h, x) && ReadsAs(read, bus, dev, fun, h);
    MiddleBytes(h, 0x0C);
    MiddleBytes(h, 0x18);
  }

  lemma MiddleBytes(b: seq<byte>, at: nat)
    requires at + 4 <= |b|
    ensures Le32(b, at) / 0x100 % 0x100 == b[at + 1] as nat && Le32(b, at) / 0x1_0000 % 0x100 == b[at + 2] as nat
  {
    var w, x, y, z := b[at] as nat, b[at + 1] as nat, b[at + 2] as nat, b[at + 3] as nat;
    assert Le32(b, at) / 0x1_0000 == y + 0x100 * z;
    assert Le32(b, at) / 0x100 == x + 0x100 * (y + 0x100 * z);
  }

  lemma NobodyShows(read: Space, bus: Bus, dev: nat, fun: nat)
    requires Shows(read, bus, dev, fun, None)
    ensures Id(read, bus, dev, fun).Some? && Nobody(Id(read, bus, dev, fun).value)
  {
  }

  /** A function counts if it is there, and is its device's first or one of several. */
  predicate Counts(cards: (nat, nat) -> Option<Card>, k: nat) {
    cards(k / 8, k % 8).Some? && (k % 8 == 0 || (cards(k / 8, 0).Some? && cards(k / 8, 0).value.several))
  }

  lemma IsPresent(read: Space, bus: Bus, cards: (nat, nat) -> Option<Card>, k: nat)
    requires Shows(read, bus, k / 8, k % 8, cards(k / 8, k % 8)) && Shows(read, bus, k / 8, 0, cards(k / 8, 0))
    ensures Present(read, bus, k) <==> Counts(cards, k)
  {
    hide Shows, Id, Header;
    var here, first := cards(k / 8, k % 8), cards(k / 8, 0);
    if here.Some? {
      IdIsRead(read, bus, k / 8, k % 8, here.value);
    } else {
      NobodyShows(read, bus, k / 8, k % 8);
    }
    if first.Some? {
      IdIsRead(read, bus, k / 8, 0, first.value);
      HeaderIsRead(read, bus, k / 8, 0, first.value);
      CardIsSmall(read, bus, k / 8, 0, first.value);
    } else {
      NobodyShows(read, bus, k / 8, 0);
    }
  }

  lemma CardIsSmall(read: Space, bus: Bus, dev: nat, fun: nat, x: Card)
    requires Shows(read, bus, dev, fun, Some(x))
    ensures x.Ok()
  {
  }

  /** Of the functions plugged into a bus exactly those that count are found, each
      under its own vendor and device, and exactly the bridges among them lead on,
      each to the bus it has been given. */
  lemma WrittenIsFound(read: Space, bus: Bus, cards: (nat, nat) -> Option<Card>, k: nat, c: Bus)
    requires k < 256
    requires Shows(read, bus, k / 8, k % 8, cards(k / 8, k % 8)) && Shows(read, bus, k / 8, 0, cards(k / 8, 0))
    ensures Present(read, bus, k) <==> Counts(cards, k)
    ensures Present(read, bus, k) ==>
              var x := cards(k / 8, k % 8).value;
              FunctionAt(read, bus, k) == Function(bus, k / 8, k % 8, x.vendor, x.device)
    ensures LeadsAt(read, bus, k, c) <==>
              Counts(cards, k) && cards(k / 8, k % 8).value.layout == 1 && cards(k / 8, k % 8).value.secondary == c != 0
  {
    hide Shows, Id, Header, Present, Secondary;
    IsPresent(read, bus, cards, k);
    var here := cards(k / 8, k % 8);
    if here.Some? {
      IdIsRead(read, bus, k / 8, k % 8, here.value);
      HeaderIsRead(read, bus, k / 8, k % 8, here.value);
    }
  }
}
