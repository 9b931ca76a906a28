/** The custom font size of `SudokuUtil.setLookAndFeel`: `changeFontSizeForNimbus`
    rewrites the single "defaultFont" entry of a Nimbus look and feel's defaults, and
    `changeFontSizeForNonNimbus` rewrites every font resource of the UI defaults. A
    defaults table maps keys to values; a value is a font resource (a `FontUIResource`,
    supplied by the look and feel), a plain font set by the application, or something
    else. */
module FontSize {
  import opened Outcomes
  import opened Text

  datatype FontValue =
    | FontResource(name: string, style: int, size: int)
    | PlainFont(name: string, style: int, size: int)
    | Other

  /** The key through which Nimbus derives all its fonts. */
  const DefaultFont := "defaultFont"

  /** What `UIManager.getFont(key)` yields for a value: the font, or null. */
  function FontOf(v: FontValue): Option<(string, int, int)>
  {
    match v
    case FontResource(n, st, sz) => Some((n, st, sz))
    case PlainFont(n, st, sz) => Some((n, st, sz))
    case Other => None
  }

  /** A font resource rewritten to `size`, keeping name and style; every other value and
      a resource already at `size` stay as they are. */
  function Rescaled(v: FontValue, size: int): FontValue
  {
    if v.FontResource? && v.size != size then FontResource(v.name, v.style, size) else v
  }

  /** The table `changeFontSizeForNonNimbus` leaves: the same keys, exactly the font
      resources of another size changed, each to the custom size with its name and style
      kept, so that afterwards every font resource has the custom size; plain fonts and
      other values never change. */
  function NonNimbusRescaled(table: map<string, FontValue>, size: int): (r: map<string, FontValue>)
    ensures r.Keys == table.Keys
    ensures forall k :: k in table ==>
      (r[k] != table[k] <==> table[k].FontResource? && table[k].size != size)
    ensures forall k :: k in table && table[k].FontResource? ==>
      r[k] == FontResource(table[k].name, table[k].style, size)
    ensures forall k :: k in r && r[k].FontResource? ==> r[k].size == size
  {
    map k | k in table :: Rescaled(table[k], size)
  }

  /** The table `changeFontSizeForNimbus` leaves. "defaultFont" goes through the cast
      `(Font) defaultFont`, which throws for a value that is no font; a font of another
      size, plain or not, is replaced by a resource with the same name and style. No
      other key is touched. */
  function NimbusRescaled(table: map<string, FontValue>, size: int): (r: Result<map<string, FontValue>>)
    ensures r.Err? <==> DefaultFont in table && table[DefaultFont].Other?
    ensures r.Err? ==> r.error == ClassCast
    ensures r.Ok? ==>
      && r.value.Keys == table.Keys
      && (forall k :: k in table && k != DefaultFont ==> r.value[k] == table[k])
      && (DefaultFont in table ==>
            && !r.value[DefaultFont].Other?
            && r.value[DefaultFont].size == size
            && r.value[DefaultFont].name == table[DefaultFont].name
            && r.value[DefaultFont].style == table[DefaultFont].style
            && (table[DefaultFont].size != size ==> r.value[DefaultFont].FontResource?))
  {
    if DefaultFont !in table then Ok(table)
    else
      match table[DefaultFont]
      case Other => Err(ClassCast)
      case f =>
        if f.size != size then Ok(table[DefaultFont := FontResource(f.name, f.style, size)])
        else Ok(table)
  }

  /** A defaults table: a look and feel's own (`LookAndFeel.getDefaults()`) or the one
      `UIManager` answers from. */
  class UIDefaults {
    var table: map<string, FontValue>

    constructor (table: map<string, FontValue>)
      ensures this.table == table
    {
      this.table := table;
    }

    /** `changeFontSizeForNimbus`: the cast failure leaves the table as it was. */
    method ChangeFontSizeForNimbus(customFontSize: int) returns (error: Option<JavaException>)
      modifies this
      ensures match NimbusRescaled(old(table), customFontSize)
        case Ok(t) => error == None && table == t
        case Err(e) => error == Some(e) && table == old(table)
    {
      error := None;
      if DefaultFont in table {
        var defaultFont := table[DefaultFont];
        if defaultFont.Other? {
          error := Some(ClassCast);
          return;
        }
        var fontSize := defaultFont.size;
        if fontSize != customFontSize {
          table := table[DefaultFont := FontResource(defaultFont.name, defaultFont.style, customFontSize)];
        }
      }
    }

    /** `changeFontSizeForNonNimbus`: the loop over the keys of the table. The keys are
        visited in the order of a set, since no entry's rewrite depends on another. */
    method ChangeFontSizeForNonNimbus(customFontSize: int)
      modifies this
      ensures table == NonNimbusRescaled(old(table), customFontSize)
    {
      ghost var original := table;
      var keys := table.Keys;
      ghost var visited: set<string> := {};
      while keys != {}
        invariant keys + visited == original.Keys && keys !! visited
        invariant table.Keys == original.Keys
        invariant forall k :: k in visited ==> table[k] == Rescaled(original[k], customFontSize)
        invariant forall k :: k in keys ==> table[k] == original[k]
        decreases keys
      {
        var key :| key in keys;
        var value := table[key];
        if value.FontResource? {
          var font := FontOf(value);
          if font.Some? {
            var (fontName, fontStyle, fontSize) := font.value;
            if fontSize != customFontSize {
              table := table[key := FontResource(fontName, fontStyle, customFontSize)];
            }
          }
        }
        keys := keys - {key};
        visited := visited + {key};
      }
      assert table == NonNimbusRescaled(original, customFontSize);
    }
  }

  /** Which rewrite `setLookAndFeel` runs. */
  datatype FontStrategy = NimbusDefaultFont | AllFontResources | DefaultSizes

  /** Lines 544 and 553, read from the class name the look and feel was obtained for:
      the Nimbus rewrite exactly when the class name mentions Nimbus and a custom size
      is wanted, the other rewrite exactly when it does not mention Nimbus and a custom
      size is wanted, and never both. */
  function StrategyFor(className: string, useDefaultFontSize: bool): (r: FontStrategy)
    ensures r == NimbusDefaultFont <==> Contains(className, "Nimbus") && !useDefaultFontSize
    ensures r == AllFontResources <==> !Contains(className, "Nimbus") && !useDefaultFontSize
    ensures r == DefaultSizes <==> useDefaultFontSize
  {
    if useDefaultFontSize then DefaultSizes
    else if Contains(className, "Nimbus") then NimbusDefaultFont
    else AllFontResources
  }

  /** Lines 541-555 without the installation of the look and feel between the two
      rewrites: the Nimbus rewrite on the look and feel's own table, or the other one on
      the table `UIManager` answers from. The look and feel's table is a new object, so
      the two are distinct. */
  method ChangeFontSize(className: string, useDefaultFontSize: bool, customFontSize: int,
                        lafDefaults: UIDefaults, uiDefaults: UIDefaults)
    returns (error: Option<JavaException>)
    requires lafDefaults != uiDefaults
    modifies lafDefaults, uiDefaults
    ensures match StrategyFor(className, useDefaultFontSize)
      case NimbusDefaultFont =>
        uiDefaults.table == old(uiDefaults.table)
        && (match NimbusRescaled(old(lafDefaults.table), customFontSize)
            case Ok(t) => error == None && lafDefaults.table == t
            case Err(e) => error == Some(e) && lafDefaults.table == old(lafDefaults.table))
      case AllFontResources =>
        error == None && lafDefaults.table == old(lafDefaults.table)
        && uiDefaults.table == NonNimbusRescaled(old(uiDefaults.table), customFontSize)
      case DefaultSizes =>
        error == None && lafDefaults.table == old(lafDefaults.table)
        && uiDefaults.table == old(uiDefaults.table)
  {
    error := None;
    if Contains(className, "Nimbus") && !useDefaultFontSize {
      error := lafDefaults.ChangeFontSizeForNimbus(customFontSize);
    }
    if !Contains(className, "Nimbus") && !useDefaultFontSize {
      uiDefaults.ChangeFontSizeForNonNimbus(customFontSize);
    }
  }

  /** The table is left as it is exactly when every font resource already has the size,
      so rewriting twice is rewriting once. */
  lemma NonNimbusNoOp(table: map<string, FontValue>, size: int)
    ensures NonNimbusRescaled(table, size) == table
      <==> forall k :: k in table && table[k].FontResource? ==> table[k].size == size
    ensures NonNimbusRescaled(NonNimbusRescaled(table, size), size) == NonNimbusRescaled(table, size)
  {
    var r := NonNimbusRescaled(table, size);
    if r == table {
      forall k | k in table && table[k].FontResource? ensures table[k].size == size {
        assert r[k] == table[k];
      }
    }
    forall k | k in r ensures Rescaled(r[k], size) == r[k] {
    }
    assert NonNimbusRescaled(r, size) == r;
  }

  /** The Nimbus rewrite changes nothing exactly when "defaultFont" is absent or a font
      of the custom size, which it is after one rewrite. */
  lemma NimbusNoOp(table: map<string, FontValue>, size: int)
    ensures NimbusRescaled(table, size) == Ok(table)
      <==> DefaultFont !in table || (!table[DefaultFont].Other? && table[DefaultFont].size == size)
    ensures NimbusRescaled(table, size).Ok? ==>
      NimbusRescaled(NimbusRescaled(table, size).value, size) == NimbusRescaled(table, size)
  {
    if DefaultFont in table && !table[DefaultFont].Other? && table[DefaultFont].size != size {
      var t := NimbusRescaled(table, size).value;
      assert t[DefaultFont] != table[DefaultFont];
    }
  }
}
