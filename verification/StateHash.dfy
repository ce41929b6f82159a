/** The byte string computeStateHash feeds to its hash: four parts, each framed
    by name and decimal length. */
module StateHash {
  import opened Strings

  function Frame(name: string, body: string): string {
    name + ":" + Decimal(|body|) + ":" + body
  }

  datatype Sections = Sections(config: string, plugins: string, rbac: string, items: string)

  function Framed(h: Sections): string {
    Frame("config", h.config) + Frame("plugins", h.plugins) + Frame("rbac", h.rbac) + Frame("items", h.items)
  }

  /** The loop over the four parts writes exactly the framed string. */
  method HashInput(h: Sections) returns (bytes: string)
    ensures bytes == Framed(h)
    ensures bytes == ("config:" + Decimal(|h.config|) + ":" + h.config)
                   + ("plugins:" + Decimal(|h.plugins|) + ":" + h.plugins)
                   + ("rbac:" + Decimal(|h.rbac|) + ":" + h.rbac)
                   + ("items:" + Decimal(|h.items|) + ":" + h.items)
  {
    var names := ["config", "plugins", "rbac", "items"];
    var bodies := [h.config, h.plugins, h.rbac, h.items];
    bytes := "";
    for i := 0 to 4
      invariant i == 0 ==> bytes == ""
      invariant i == 1 ==> bytes == Frame("config", h.config)
      invariant i == 2 ==> bytes == Frame("config", h.config) + Frame("plugins", h.plugins)
      invariant i == 3 ==> bytes == Frame("config", h.config) + Frame("plugins", h.plugins) + Frame("rbac", h.rbac)
      invariant i == 4 ==> bytes == Framed(h)
    {
      bytes := bytes + Frame(names[i], bodies[i]);
    }
    assert "config" + ":" == "config:" && "plugins" + ":" == "plugins:";
    assert "rbac" + ":" == "rbac:" && "items" + ":" == "items:";
  }

  /** A frame reads back: the same name in front of two texts determines the
      length, then the body, then what follows. */
  lemma FrameCancels(name: string, a: string, x: string, b: string, y: string)
    requires Frame(name, a) + x == Frame(name, b) + y
    ensures a == b && x == y
  {
    var s := Frame(name, a) + x;
    var da, db := Decimal(|a|), Decimal(|b|);
    assert s == (name + ":") + (da + ":" + (a + x));
    assert s == (name + ":") + (db + ":" + (b + y));
    assert s[|name| + 1..] == da + ":" + (a + x);
    assert s[|name| + 1..] == db + ":" + (b + y);
    DecimalValue(|a|);
    DecimalValue(|b|);
    CutUnique(da, a + x, db, b + y, ':');
    DecimalInjective(|a|, |b|);
    assert (a + x)[..|a|] == a && (a + x)[|a|..] == x;
    assert (b + y)[..|a|] == b && (b + y)[|a|..] == y;
  }

  lemma Reassociate(a: string, b: string, c: string, d: string)
    ensures a + b + c + d == a + (b + (c + (d + "")))
  {
  }

  /** Two quadruples, empty sections included, give the same bytes only when
      they are equal. */
  lemma FramingInjective(g: Sections, h: Sections)
    requires Framed(g) == Framed(h)
    ensures g == h
  {
    var g3, h3 := Frame("items", g.items) + "", Frame("items", h.items) + "";
    var g2, h2 := Frame("rbac", g.rbac) + g3, Frame("rbac", h.rbac) + h3;
    var g1, h1 := Frame("plugins", g.plugins) + g2, Frame("plugins", h.plugins) + h2;
    Reassociate(Frame("config", g.config), Frame("plugins", g.plugins), Frame("rbac", g.rbac), Frame("items", g.items));
    Reassociate(Frame("config", h.config), Frame("plugins", h.plugins), Frame("rbac", h.rbac), Frame("items", h.items));
    FrameCancels("config", g.config, g1, h.config, h1);
    FrameCancels("plugins", g.plugins, g2, h.plugins, h2);
    FrameCancels("rbac", g.rbac, g3, h.rbac, h3);
    FrameCancels("items", g.items, "", h.items, "");
  }
}
