/** The material record that the floor-material pass rewrites, and the colour
    value that `Color.setHex` stores. */
module Materials {

  /** One 8-bit colour channel. */
  type Channel = x: int | 0 <= x < 256

  /** A colour as its red, green and blue channels. */
  datatype Rgb = Rgb(r: Channel, g: Channel, b: Channel)

  /** The channels of a hexadecimal colour `0xRRGGBB`, as `setHex` splits it
      with `hex >> 16 & 255`, `hex >> 8 & 255` and `hex & 255`. */
  function FromHex(hex: nat): (c: Rgb)
    ensures c.b == hex % 256
  {
    Rgb(hex / 0x1_0000 % 256, hex / 256 % 256, hex % 256)
  }

  /** The hexadecimal value `0xRRGGBB` of a colour. */
  function ToHex(c: Rgb): (hex: nat)
    ensures hex < 0x100_0000
  {
    c.r * 0x1_0000 + c.g * 256 + c.b
  }

  /** Splitting a 24-bit hexadecimal colour and joining its channels gives it back. */
  lemma HexRoundTrip(hex: nat)
    requires hex < 0x100_0000
    ensures ToHex(FromHex(hex)) == hex
  {
    var c := FromHex(hex);
    assert hex / 256 == (hex / 0x1_0000) * 256 + hex / 256 % 256;
    assert hex == (hex / 256) * 256 + hex % 256;
  }

  /** Joining three channels and splitting the result gives the channels back. */
  lemma RgbRoundTrip(c: Rgb)
    ensures FromHex(ToHex(c)) == c
  {
    var hex := ToHex(c);
    assert hex / 256 == c.r * 256 + c.g;
    assert hex / 0x1_0000 == c.r;
  }

  /** The attributes of a physically based material that the pass touches: base
      colour, roughness, metalness, environment-map intensity and the flag that
      tells the renderer to rebuild the material. */
  datatype Material = Material(
    color: Rgb,
    roughness: real,
    metalness: real,
    envMapIntensity: real,
    needsUpdate: bool)

  /** The mid-grey of the floor finish, `0x888888`. */
  const FloorHex: nat := 0x888888

  /** The material after the four writes and the dirty flag of the pass. */
  function Retint(m: Material): (r: Material)
    ensures r.color == Rgb(0x88, 0x88, 0x88)
    ensures r.roughness == 0.8 && r.metalness == 0.1 && r.envMapIntensity == 0.2
    ensures r.needsUpdate
  {
    m.(color := FromHex(FloorHex), roughness := 0.8, metalness := 0.1,
       envMapIntensity := 0.2, needsUpdate := true)
  }

  /** The retinted material does not depend on the material it started from, so
      retinting is idempotent. */
  lemma RetintConstant(m: Material, n: Material)
    ensures Retint(m) == Retint(n)
    ensures Retint(Retint(m)) == Retint(m)
  {
  }
}
