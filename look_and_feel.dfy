/** Choosing the look and feel: `SudokuUtil.setLookAndFeel` resolves the class name stored
    in the options against the installed look and feels (exact name first, then the same
    simple class name in another package, else the system default), writing a corrected
    name back; `getLookAndFeelName`, `getNimbusLookAndFeel` and `getNonNimbusLookAndFeel`
    then obtain an instance. The registry `UIManager.getInstalledLookAndFeels()`, the
    system default class name and the names `UIManager.createLookAndFeel` can
    instantiate are parameters. */
module LookAndFeel {
  import opened Outcomes
  import opened Text

  /** One entry of the registry: display name and class name. */
  datatype LafInfo = LafInfo(name: string, className: string)

  /** An instantiated look and feel, identified by the display name it was created from. */
  datatype Laf = Laf(name: string)

  /** The display name `getNimbusLookAndFeel` looks for. */
  const Nimbus := "Nimbus"

  /** `cls.substring(cls.lastIndexOf('.') + 1)`: the class name without its package. */
  function SimpleName(cls: string): (r: string)
    ensures EndsWith(cls, r)
    ensures '.' !in r
    ensures '.' !in cls ==> r == cls
    ensures '.' in cls ==> |r| < |cls| && cls[|cls| - |r| - 1] == '.'
  {
    AfterLastDot(cls);
    cls[LastIndexOf(cls, '.') + 1..]
  }

  /** No dot follows the last one. */
  lemma AfterLastDot(cls: string)
    ensures '.' !in cls[LastIndexOf(cls, '.') + 1..]
  {
    var p := LastIndexOf(cls, '.');
    var r := cls[p + 1..];
    forall k | 0 <= k < |r| ensures r[k] != '.' {
      assert r[k] == cls[p + 1 + k];
    }
  }

  /** The test applied to each registry entry in turn: the class name is the stored one,
      or it ends with the stored simple name (the same class in another package). */
  predicate Matches(info: LafInfo, stored: string)
  {
    info.className == stored || EndsWith(info.className, SimpleName(stored))
  }

  /** The position of the first entry that matches, if any. */
  function FirstMatch(lafs: seq<LafInfo>, stored: string): (r: Option<nat>)
    ensures r.Some? ==> r.value < |lafs| && Matches(lafs[r.value], stored)
    ensures r.Some? ==> forall j :: 0 <= j < r.value ==> !Matches(lafs[j], stored)
    ensures r.None? ==> forall j :: 0 <= j < |lafs| ==> !Matches(lafs[j], stored)
  {
    if lafs == [] then None
    else if Matches(lafs[0], stored) then Some(0)
    else
      var tail := lafs[1..];
      assert forall j :: 1 <= j < |lafs| ==> lafs[j] == tail[j - 1];
      match FirstMatch(tail, stored)
      case None => None
      case Some(i) => Some(i + 1)
  }

  /** What the resolution decides: the class name to use and, if any, the value passed
      to `Options.setLaf`. */
  datatype Resolution = Resolution(className: string, written: Option<string>)

  /** Lines 494-522 of `setLookAndFeel`. An empty stored name, or one no entry matches,
      selects the system default and always writes "" back; otherwise the first entry
      that matches selects its class name, written back only when it differs. */
  function Resolve(lafs: seq<LafInfo>, stored: string, systemDefault: string): Resolution
  {
    if stored == "" then Resolution(systemDefault, Some(""))
    else
      match FirstMatch(lafs, stored)
      case None => Resolution(systemDefault, Some(""))
      case Some(i) =>
        var cls := lafs[i].className;
        Resolution(cls, if cls != stored then Some(cls) else None)
  }

  /** The stored preference once the resolution's write, if any, is done. */
  function PreferenceAfter(stored: string, r: Resolution): string
  {
    match r.written
    case Some(s) => s
    case None => stored
  }

  /** The persisted options the resolution reads and corrects. `lafWrites` records the
      arguments of every `setLaf` call, so that a write of an unchanged value shows. */
  class Options {
    var laf: string
    var useDefaultFontSize: bool
    var customFontSize: int
    ghost var lafWrites: seq<string>

    constructor (laf: string, useDefaultFontSize: bool, customFontSize: int)
      ensures this.laf == laf && this.useDefaultFontSize == useDefaultFontSize
      ensures this.customFontSize == customFontSize && lafWrites == []
    {
      this.laf := laf;
      this.useDefaultFontSize := useDefaultFontSize;
      this.customFontSize := customFontSize;
      lafWrites := [];
    }

    method SetLaf(value: string)
      modifies this
      ensures laf == value && lafWrites == old(lafWrites) + [value]
      ensures useDefaultFontSize == old(useDefaultFontSize)
      ensures customFontSize == old(customFontSize)
    {
      laf := value;
      lafWrites := lafWrites + [value];
    }
  }

  /** The writes a resolution performs. */
  function Writes(r: Resolution): seq<string>
  {
    match r.written
    case Some(s) => [s]
    case None => []
  }

  /** `SudokuUtil`'s static state: the class name of the look and feel being set. */
  class Session {
    var lookAndFeelClassName: string

    constructor ()
      ensures lookAndFeelClassName == ""
    {
      lookAndFeelClassName := "";
    }

    /** Lines 494-522 of `setLookAndFeel`: the scan, then the write-back. */
    method ResolveLookAndFeel(options: Options, lafs: seq<LafInfo>, systemDefault: string)
      modifies this, options
      ensures var r := Resolve(lafs, old(options.laf), systemDefault);
        lookAndFeelClassName == r.className
        && options.laf == PreferenceAfter(old(options.laf), r)
        && options.lafWrites == old(options.lafWrites) + Writes(r)
      ensures options.useDefaultFontSize == old(options.useDefaultFontSize)
      ensures options.customFontSize == old(options.customFontSize)
    {
      var found := false;
      lookAndFeelClassName := options.laf;
      var storedLaFClassName := lookAndFeelClassName;
      if lookAndFeelClassName != "" {
        found, lookAndFeelClassName := ScanRegistry(lafs, storedLaFClassName);
      }
      if !found {
        options.SetLaf("");
        lookAndFeelClassName := systemDefault;
      } else {
        if storedLaFClassName != lookAndFeelClassName {
          options.SetLaf(lookAndFeelClassName);
        }
      }
    }

    /** `getLookAndFeelName`: the display name of the first entry with the current class
        name, or null. */
    method LookAndFeelName(lafs: seq<LafInfo>) returns (result: Option<string>)
      ensures result == NameOf(lafs, lookAndFeelClassName)
    {
      result := None;
      var i := 0;
      while i < |lafs|
        invariant 0 <= i <= |lafs|
        invariant NameOf(lafs, lookAndFeelClassName) == NameOf(lafs[i..], lookAndFeelClassName)
      {
        if lafs[i].className == lookAndFeelClassName {
          result := Some(lafs[i].name);
          break;
        }
        assert lafs[i..][1..] == lafs[i + 1..];
        i := i + 1;
      }
    }

    /** `getNimbusLookAndFeel`: an instance of the first entry named "Nimbus". When there
        is none, or it cannot be instantiated, the class name switches to the system
        default and there is no instance. */
    method NimbusLookAndFeel(lafs: seq<LafInfo>, systemDefault: string, creatable: set<string>)
      returns (result: Option<Laf>)
      modifies this
      ensures result == NimbusInstance(lafs, creatable)
      ensures lookAndFeelClassName == if result.None? then systemDefault else old(lookAndFeelClassName)
    {
      result := None;
      var i := 0;
      while i < |lafs|
        invariant 0 <= i <= |lafs|
        invariant forall j :: 0 <= j < i ==> lafs[j].name != Nimbus
      {
        if lafs[i].name == Nimbus {
          if Nimbus in creatable {
            result := Some(Laf(Nimbus));
          } else {
            // the UnsupportedLookAndFeelException leaves the loop
            lookAndFeelClassName := systemDefault;
          }
          break;
        }
        i := i + 1;
      }
      if result.None? {
        lookAndFeelClassName := systemDefault;
      }
    }

    /** `getNonNimbusLookAndFeel`: an instance of the look and feel named after the current
        class name; none when the name is null or cannot be instantiated. */
    method NonNimbusLookAndFeel(lafs: seq<LafInfo>, creatable: set<string>) returns (result: Option<Laf>)
      ensures result == NonNimbusInstance(lafs, lookAndFeelClassName, creatable)
    {
      var lafName := LookAndFeelName(lafs);
      if lafName.Some? && lafName.value in creatable {
        result := Some(Laf(lafName.value));
      } else {
        result := None;
      }
    }

    /** Lines 524-536: the Nimbus instance when the class name mentions Nimbus, else (or
        when there is none) the instance `getNonNimbusLookAndFeel` obtains. */
    method ObtainLookAndFeel(lafs: seq<LafInfo>, systemDefault: string, creatable: set<string>)
      returns (lookAndFeel: Option<Laf>)
      modifies this
      ensures var o := Obtained(lafs, old(lookAndFeelClassName), systemDefault, creatable);
        lookAndFeel == o.0 && lookAndFeelClassName == o.1
    {
      lookAndFeel := None;
      if Contains(lookAndFeelClassName, Nimbus) {
        lookAndFeel := NimbusLookAndFeel(lafs, systemDefault, creatable);
      }
      if lookAndFeel.None? {
        lookAndFeel := NonNimbusLookAndFeel(lafs, creatable);
      }
    }
  }

  /** The loop of lines 498-512 over the registry, for a non-empty stored name: each
      entry is tested for the stored class name, then for its simple name, and the
      first that passes either test ends the scan with its class name. */
  method ScanRegistry(lafs: seq<LafInfo>, stored: string) returns (found: bool, cls: string)
    ensures found <==> FirstMatch(lafs, stored).Some?
    ensures found ==> cls == lafs[FirstMatch(lafs, stored).value].className
    ensures !found ==> cls == stored
  {
    found, cls := false, stored;
    var lafName := SimpleName(stored);
    var i := 0;
    while i < |lafs|
      invariant 0 <= i <= |lafs|
      invariant forall j :: 0 <= j < i ==> !Matches(lafs[j], stored)
    {
      if lafs[i].className == cls {
        found := true;
        ScanHit(lafs, stored, i);
        return;
      } else if EndsWith(lafs[i].className, lafName) {
        cls := lafs[i].className;
        found := true;
        ScanHit(lafs, stored, i);
        return;
      }
      i := i + 1;
    }
    ScanMiss(lafs, stored);
  }

  /** The display name of the first entry whose class name is `cls`; none when no entry
      has it. */
  function NameOf(lafs: seq<LafInfo>, cls: string): (r: Option<string>)
    ensures r.None? <==> forall j :: 0 <= j < |lafs| ==> lafs[j].className != cls
    ensures r.Some? ==> exists j :: (0 <= j < |lafs| && lafs[j].className == cls && lafs[j].name == r.value
      && forall i :: 0 <= i < j ==> lafs[i].className != cls)
  {
    if lafs == [] then None
    else if lafs[0].className == cls then Some(lafs[0].name)
    else NameOf(lafs[1..], cls)
  }

  /** The instance `getNimbusLookAndFeel` returns. */
  function NimbusInstance(lafs: seq<LafInfo>, creatable: set<string>): Option<Laf>
  {
    if (exists j :: 0 <= j < |lafs| && lafs[j].name == Nimbus) && Nimbus in creatable
    then Some(Laf(Nimbus)) else None
  }

  /** The instance `getNonNimbusLookAndFeel` returns for class name `cls`. */
  function NonNimbusInstance(lafs: seq<LafInfo>, cls: string, creatable: set<string>): Option<Laf>
  {
    match NameOf(lafs, cls)
    case Some(n) => if n in creatable then Some(Laf(n)) else None
    case None => None
  }

  /** The instance lines 524-536 obtain and the class name afterwards. */
  function Obtained(lafs: seq<LafInfo>, cls: string, systemDefault: string, creatable: set<string>)
    : (Option<Laf>, string)
  {
    if Contains(cls, Nimbus) && NimbusInstance(lafs, creatable).Some? then
      (NimbusInstance(lafs, creatable), cls)
    else
      var cls' := if Contains(cls, Nimbus) then systemDefault else cls;
      (NonNimbusInstance(lafs, cls', creatable), cls')
  }

  /** Obtaining a look and feel changes the class name only to fall back from an
      unavailable Nimbus to the system default; an instance is always of an installed
      look and feel that can be created, and it is Nimbus, or the display name of the
      first entry with the class name as it then stands. */
  lemma ObtainedInstalled(lafs: seq<LafInfo>, cls: string, systemDefault: string, creatable: set<string>)
    ensures var o := Obtained(lafs, cls, systemDefault, creatable);
      o.1 != cls ==> o.1 == systemDefault && Contains(cls, Nimbus) && NimbusInstance(lafs, creatable).None?
    ensures var o := Obtained(lafs, cls, systemDefault, creatable);
      o.0.Some? ==>
        && o.0.value.name in creatable
        && (exists j :: 0 <= j < |lafs| && lafs[j].name == o.0.value.name
              && (o.0.value.name == Nimbus
                  || (lafs[j].className == o.1 && forall i :: 0 <= i < j ==> lafs[i].className != o.1)))
  {
    var o := Obtained(lafs, cls, systemDefault, creatable);
    if o.0.Some? && !(Contains(cls, Nimbus) && NimbusInstance(lafs, creatable).Some?) {
      var n := NameOf(lafs, o.1);
      assert n.Some? && o.0.value.name == n.value;
    }
  }

  /** The scan stops at entry `i`, the first that matches. */
  lemma {:induction false} ScanHit(lafs: seq<LafInfo>, stored: string, i: nat)
    requires i < |lafs| && Matches(lafs[i], stored)
    requires forall j :: 0 <= j < i ==> !Matches(lafs[j], stored)
    ensures FirstMatch(lafs, stored) == Some(i)
  {
    if i > 0 {
      var tail := lafs[1..];
      assert forall j :: 0 <= j < i - 1 ==> tail[j] == lafs[j + 1];
      assert tail[i - 1] == lafs[i];
      ScanHit(tail, stored, i - 1);
    }
  }

  /** The scan finds nothing when no entry matches. */
  lemma {:induction false} ScanMiss(lafs: seq<LafInfo>, stored: string)
    requires forall j :: 0 <= j < |lafs| ==> !Matches(lafs[j], stored)
    ensures FirstMatch(lafs, stored) == None
  {
    if lafs != [] {
      var tail := lafs[1..];
      assert forall j :: 0 <= j < |tail| ==> tail[j] == lafs[j + 1];
      ScanMiss(tail, stored);
    }
  }

  /** A class name that ends with a simple name `s` has a simple name that ends with `s`:
      the package part lies before `s`. */
  lemma SimpleNameKeepsSuffix(cls: string, s: string)
    requires EndsWith(cls, s) && '.' !in s
    ensures EndsWith(SimpleName(cls), s)
  {
    var p := LastIndexOf(cls, '.');
    assert p < |cls| - |s|;
    assert SimpleName(cls)[|SimpleName(cls)| - |s|..] == cls[|cls| - |s|..];
  }

  lemma EndsWithTrans(a: string, b: string, c: string)
    requires EndsWith(a, b) && EndsWith(b, c)
    ensures EndsWith(a, c)
  {
    assert a[|a| - |c|..] == a[|a| - |b|..][|b| - |c|..];
  }

  /** The class name chosen is the system default or an installed one that matches the
      stored name; a write stores "" or the chosen class name. */
  lemma ResolveChoosesInstalledOrDefault(lafs: seq<LafInfo>, stored: string, systemDefault: string)
    ensures var r := Resolve(lafs, stored, systemDefault);
      (r.className == systemDefault && r.written == Some(""))
      || exists i :: 0 <= i < |lafs| && lafs[i].className == r.className && Matches(lafs[i], stored)
    ensures var r := Resolve(lafs, stored, systemDefault);
      r.written.Some? ==> r.written.value == "" || r.written.value == r.className
  {
    if stored != "" && FirstMatch(lafs, stored).Some? {
      var i := FirstMatch(lafs, stored).value;
      assert lafs[i].className == Resolve(lafs, stored, systemDefault).className;
    }
  }

  /** An empty stored name, or one that no entry matches, selects the system default and
      writes "" back, even when "" is already stored. */
  lemma ResolveFallsBack(lafs: seq<LafInfo>, stored: string, systemDefault: string)
    requires stored == "" || forall j :: 0 <= j < |lafs| ==> !Matches(lafs[j], stored)
    ensures Resolve(lafs, stored, systemDefault) == Resolution(systemDefault, Some(""))
  {
    if stored != "" {
      ScanMiss(lafs, stored);
    }
  }

  /** A stored name installed at entry `i`, with no earlier entry matching it, resolves to
      itself and is not written back. */
  lemma ResolveInstalled(lafs: seq<LafInfo>, stored: string, systemDefault: string, i: nat)
    requires stored != "" && i < |lafs| && lafs[i].className == stored
    requires forall j :: 0 <= j < i ==> !Matches(lafs[j], stored)
    ensures Resolve(lafs, stored, systemDefault) == Resolution(stored, None)
  {
    ResolveHit(lafs, stored, systemDefault, i);
  }

  /** Each entry is tested for both the exact and the simple name before the next, so an
      earlier entry with the same simple name in another package wins over a later entry
      that is exactly the stored name, and its class name is written back. */
  lemma EarlierSuffixWins(lafs: seq<LafInfo>, stored: string, systemDefault: string, k: nat, i: nat)
    requires stored != "" && k < i < |lafs| && lafs[i].className == stored
    requires lafs[k].className != stored && EndsWith(lafs[k].className, SimpleName(stored))
    requires forall j :: 0 <= j < k ==> !Matches(lafs[j], stored)
    ensures Resolve(lafs, stored, systemDefault) ==
      Resolution(lafs[k].className, Some(lafs[k].className))
  {
    ResolveHit(lafs, stored, systemDefault, k);
  }

  /** A non-empty stored name whose first match is entry `k` resolves to that entry's
      class name, written back when it differs. */
  lemma ResolveHit(lafs: seq<LafInfo>, stored: string, systemDefault: string, k: nat)
    requires stored != "" && k < |lafs| && Matches(lafs[k], stored)
    requires forall j :: 0 <= j < k ==> !Matches(lafs[j], stored)
    ensures Resolve(lafs, stored, systemDefault) ==
      Resolution(lafs[k].className, if lafs[k].className != stored then Some(lafs[k].className) else None)
  {
    ScanHit(lafs, stored, k);
  }

  /** Resolving again once the correction is stored chooses the same class name and stores
      nothing new; a write happens again only on the fallback, which rewrites "". Every
      installed look and feel has a class name. */
  lemma ResolveIdempotent(lafs: seq<LafInfo>, stored: string, systemDefault: string)
    requires forall j :: 0 <= j < |lafs| ==> lafs[j].className != ""
    ensures var r1 := Resolve(lafs, stored, systemDefault);
      var p := PreferenceAfter(stored, r1);
      var r2 := Resolve(lafs, p, systemDefault);
      r2.className == r1.className && PreferenceAfter(p, r2) == p
      && (r2.written.Some? ==> p == "" && r2.written == Some(""))
  {
    if stored != "" && FirstMatch(lafs, stored).Some? {
      var i := FirstMatch(lafs, stored).value;
      var cls := lafs[i].className;
      var s := SimpleName(stored);
      assert EndsWith(cls, s) by {
        if cls == stored {
          assert EndsWith(stored, s);
        }
      }
      SimpleNameKeepsSuffix(cls, s);
      forall j | 0 <= j < i ensures !Matches(lafs[j], cls) {
        assert !Matches(lafs[j], stored);
        if EndsWith(lafs[j].className, SimpleName(cls)) {
          EndsWithTrans(lafs[j].className, SimpleName(cls), s);
          assert false;
        }
      }
      ScanHit(lafs, cls, i);
    }
  }
}
