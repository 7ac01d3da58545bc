/**
 * The `Device` gate: whether a `Device` element renders its children,
 * decided from the viewport size, the browser language and the element's
 * options (device types, orientations, languages and pixel breakpoints).
 */
module Device {
  import opened Wrappers

  datatype DeviceType = Mobile | Tablet | Desktop
  datatype DeviceOrientation = Portrait | Landscape

  /** An option given either as one value (compared with `===`) or as an array (tested with `includes`). */
  datatype OneOrMany<T> = Single(value: T) | Many(values: seq<T>)

  /**
   * The evaluation context: either there is no `window` (server-side
   * rendering), or there is one with its viewport size and `navigator.language`.
   */
  datatype Env = NoWindow | Window(innerWidth: int, innerHeight: int, language: string)

  /** `[number?, number?]`: an optional width bound and an optional height bound. */
  datatype Bounds = Bounds(width: Option<int>, height: Option<int>)

  /** One entry `{ max?, min? }` of the `breakpoints` array. */
  datatype Breakpoint = Breakpoint(max: Option<Bounds>, min: Option<Bounds>)

  datatype DeviceProps = DeviceProps(
    default: bool,
    deviceOrientations: Option<OneOrMany<DeviceOrientation>>,
    deviceTypes: Option<OneOrMany<DeviceType>>,
    language: Option<OneOrMany<string>>,
    breakpoints: Option<seq<Breakpoint>>)

  /** `o.includes(x)` for an array option, `o === x` for a single one. */
  predicate Matches<T(==)>(o: OneOrMany<T>, x: T) {
    match o
    case Single(v) => v == x
    case Many(vs) => x in vs
  }

  function CurrentOrientation(width: int, height: int): (o: DeviceOrientation)
    ensures o == Landscape <==> width > height
  {
    if width > height then Landscape else Portrait
  }

  /**
   * The device type as the source computes it: it starts as desktop, is set
   * to mobile at width 768 or less, and is then overwritten with tablet at
   * width 1024 or less. The last write wins, so mobile is never the result.
   */
  function CurrentDeviceType(width: int): (t: DeviceType)
    ensures t != Mobile
    ensures t == Tablet <==> width <= 1024
    ensures t == Desktop <==> width > 1024
  {
    var initial := Desktop;
    var afterMobile := if width <= 768 then Mobile else initial;
    var afterTablet := if width <= 1024 then Tablet else afterMobile;
    afterTablet
  }

  function CheckOrientation(p: DeviceProps, env: Env): (ok: bool)
    ensures env.NoWindow? ==> !ok
    ensures env.Window? && p.deviceOrientations.None? ==> ok
    ensures env.Window? && p.deviceOrientations.Some? ==>
      (ok <==> Matches(p.deviceOrientations.value, CurrentOrientation(env.innerWidth, env.innerHeight)))
  {
    match env
    case NoWindow => false
    case Window(w, h, _) =>
      match p.deviceOrientations
      case None => true
      case Some(o) => Matches(o, CurrentOrientation(w, h))
  }

  function CheckDeviceType(p: DeviceProps, env: Env): (ok: bool)
    ensures !env.Window? || p.deviceTypes.None? ==> !ok
    ensures env.Window? && p.deviceTypes.Some? ==>
      (ok <==> Matches(p.deviceTypes.value, CurrentDeviceType(env.innerWidth)))
  {
    match env
    case NoWindow => false
    case Window(w, _, _) =>
      match p.deviceTypes
      case None => false  // `undefined === currentDeviceType`
      case Some(t) => Matches(t, CurrentDeviceType(w))
  }

  /**
   * The language check. An absent option, or a single empty string (which is
   * falsy), makes the check return `undefined`, which counts as false.
   */
  function CheckLanguage(p: DeviceProps, env: Env): (ok: bool)
    ensures !env.Window? || p.language.None? ==> !ok
    ensures env.Window? && p.language.Some? && p.language.value.Many? ==>
      (ok <==> env.language in p.language.value.values)
    ensures env.Window? && p.language.Some? && p.language.value.Single? ==>
      (ok <==> p.language.value.value != "" && p.language.value.value == env.language)
  {
    match env
    case NoWindow => false
    case Window(_, _, lang) =>
      match p.language
      case None => false
      case Some(Single(l)) => l != "" && l == lang
      case Some(Many(ls)) => lang in ls
  }

  /** A bound counts only when it is given and truthy: `0` is ignored. */
  predicate Given(b: Option<int>) {
    b.Some? && b.value != 0
  }

  /**
   * Reference meaning of one breakpoint entry: every given maximum and
   * minimum holds inclusively of the viewport.
   */
  predicate InWindow(bp: Breakpoint, width: int, height: int) {
    && (bp.max.Some? && Given(bp.max.value.width) ==> width <= bp.max.value.width.value)
    && (bp.max.Some? && Given(bp.max.value.height) ==> height <= bp.max.value.height.value)
    && (bp.min.Some? && Given(bp.min.value.width) ==> width >= bp.min.value.width.value)
    && (bp.min.Some? && Given(bp.min.value.height) ==> height >= bp.min.value.height.value)
  }

  /** The four guarded early returns for one entry, in source order; true when none fires. */
  predicate EntryPasses(bp: Breakpoint, width: int, height: int) {
    if bp.max.Some? && Given(bp.max.value.width) && width > bp.max.value.width.value then false
    else if bp.max.Some? && Given(bp.max.value.height) && height > bp.max.value.height.value then false
    else if bp.min.Some? && Given(bp.min.value.width) && width < bp.min.value.width.value then false
    else if bp.min.Some? && Given(bp.min.value.height) && height < bp.min.value.height.value then false
    else true
  }

  /**
   * The `for ... of breakpoints` loop, which returns false at the first
   * entry that fails and true after the last. It passes exactly when every
   * entry holds of the viewport (all entries are AND-ed).
   */
  function ScanBreakpoints(bps: seq<Breakpoint>, width: int, height: int): (ok: bool)
    ensures ok <==> forall i :: 0 <= i < |bps| ==> InWindow(bps[i], width, height)
  {
    if |bps| == 0 then true
    else if !EntryPasses(bps[0], width, height) then false
    else
      assert forall i :: 1 <= i < |bps| ==> bps[i] == bps[1..][i - 1];
      ScanBreakpoints(bps[1..], width, height)
  }

  function CheckBreakpoints(p: DeviceProps, env: Env): (ok: bool)
    ensures env.NoWindow? ==> !ok
    ensures env.Window? && p.breakpoints.None? ==> ok
    ensures env.Window? && p.breakpoints.Some? ==>
      (ok <==> forall i :: 0 <= i < |p.breakpoints.value| ==>
                 InWindow(p.breakpoints.value[i], env.innerWidth, env.innerHeight))
  {
    match env
    case NoWindow => false
    case Window(w, h, _) =>
      match p.breakpoints
      case None => true
      case Some(bps) => ScanBreakpoints(bps, w, h)
  }

  /**
   * Whether the children are rendered: without a window only the `default`
   * flag decides; with one, all four checks must be truthy, that is, the
   * orientation, the device type, the language and every breakpoint entry
   * agree with the viewport.
   */
  function Renders(p: DeviceProps, env: Env): (r: bool)
    ensures env.NoWindow? ==> (r <==> p.default)
    ensures env.Window? ==> (r <==>
      && (p.deviceOrientations.Some? ==>
            Matches(p.deviceOrientations.value, CurrentOrientation(env.innerWidth, env.innerHeight)))
      && p.deviceTypes.Some? && Matches(p.deviceTypes.value, CurrentDeviceType(env.innerWidth))
      && p.language.Some?
      && (p.language.value.Single? ==> p.language.value.value != "" && p.language.value.value == env.language)
      && (p.language.value.Many? ==> env.language in p.language.value.values)
      && (p.breakpoints.Some? ==>
            forall i :: 0 <= i < |p.breakpoints.value| ==>
              InWindow(p.breakpoints.value[i], env.innerWidth, env.innerHeight)))
  {
    if env.NoWindow? then p.default
    else CheckOrientation(p, env) && CheckDeviceType(p, env) && CheckLanguage(p, env) && CheckBreakpoints(p, env)
  }

  /** In a browser, a gate without `deviceTypes` never renders its children. */
  lemma MissingDeviceTypesRendersNothing(p: DeviceProps, env: Env)
    requires env.Window? && p.deviceTypes.None?
    ensures !Renders(p, env)
  {
  }

  /** In a browser, a gate without `language` never renders its children. */
  lemma MissingLanguageRendersNothing(p: DeviceProps, env: Env)
    requires env.Window? && p.language.None?
    ensures !Renders(p, env)
  {
  }

  /** A square viewport is portrait. */
  lemma SquareIsPortrait(n: int)
    ensures CurrentOrientation(n, n) == Portrait
  {
  }

  /** The device type at the thresholds: 768 and 769 are tablet, 1024 is tablet, 1025 is desktop. */
  lemma DeviceTypeThresholds()
    ensures CurrentDeviceType(768) == Tablet
    ensures CurrentDeviceType(769) == Tablet
    ensures CurrentDeviceType(1024) == Tablet
    ensures CurrentDeviceType(1025) == Desktop
  {
  }

  /** A viewport exactly at a maximum or a minimum passes it: both are inclusive. */
  lemma BoundsAreInclusive(w: int, h: int)
    requires w != 0 && h != 0
    ensures ScanBreakpoints([Breakpoint(Some(Bounds(Some(w), Some(h))), None)], w, h)
    ensures ScanBreakpoints([Breakpoint(None, Some(Bounds(Some(w), Some(h))))], w, h)
  {
  }

  /** A bound of `0` behaves exactly as an absent bound, in each of the four slots. */
  lemma ZeroBoundIsIgnored(bp: Breakpoint, width: int, height: int)
    ensures bp.max.Some? ==>
      var b := bp.max.value;
      InWindow(bp.(max := Some(b.(width := Some(0)))), width, height) ==
      InWindow(bp.(max := Some(b.(width := None))), width, height)
    ensures bp.max.Some? ==>
      var b := bp.max.value;
      InWindow(bp.(max := Some(b.(height := Some(0)))), width, height) ==
      InWindow(bp.(max := Some(b.(height := None))), width, height)
    ensures bp.min.Some? ==>
      var b := bp.min.value;
      InWindow(bp.(min := Some(b.(width := Some(0)))), width, height) ==
      InWindow(bp.(min := Some(b.(width := None))), width, height)
    ensures bp.min.Some? ==>
      var b := bp.min.value;
      InWindow(bp.(min := Some(b.(height := Some(0)))), width, height) ==
      InWindow(bp.(min := Some(b.(height := None))), width, height)
  {
  }

  /** `breakpoints=[{max:[500]}]`: a viewport 600 wide is refused, one 400 wide is accepted. */
  lemma MaxWidthScenario(h: int)
    ensures !ScanBreakpoints([Breakpoint(Some(Bounds(Some(500), None)), None)], 600, h)
    ensures ScanBreakpoints([Breakpoint(Some(Bounds(Some(500), None)), None)], 400, h)
  {
  }

  /**
   * The component's state: the four check results held with `useState`.
   * They are computed at mount; a `resize` recomputes orientation, device
   * type and breakpoints, but the language result stays the one from mount.
   */
  class DeviceGate {
    const props: DeviceProps
    var orientationOk: bool
    var deviceTypeOk: bool
    const languageOk: bool
    var breakpointsOk: bool

    constructor (p: DeviceProps, env: Env)
      ensures props == p
      ensures orientationOk == CheckOrientation(p, env)
      ensures deviceTypeOk == CheckDeviceType(p, env)
      ensures languageOk == CheckLanguage(p, env)
      ensures breakpointsOk == CheckBreakpoints(p, env)
      ensures RendersChildren(env) == Renders(p, env)
    {
      props := p;
      orientationOk := CheckOrientation(p, env);
      deviceTypeOk := CheckDeviceType(p, env);
      languageOk := CheckLanguage(p, env);
      breakpointsOk := CheckBreakpoints(p, env);
    }

    /** The `resize` handler. */
    method HandleResize(env: Env)
      modifies this
      ensures orientationOk == CheckOrientation(props, env)
      ensures deviceTypeOk == CheckDeviceType(props, env)
      ensures breakpointsOk == CheckBreakpoints(props, env)
      ensures CheckLanguage(props, env) == languageOk ==> RendersChildren(env) == Renders(props, env)
    {
      orientationOk := CheckOrientation(props, env);
      deviceTypeOk := CheckDeviceType(props, env);
      breakpointsOk := CheckBreakpoints(props, env);
    }

    /**
     * What the component renders, given whether a window exists now: the
     * `default` flag without one, the four held results with one.
     */
    function RendersChildren(env: Env): (r: bool)
      reads this
      ensures env.NoWindow? ==> (r <==> props.default)
      ensures env.Window? ==> (r <==> orientationOk && deviceTypeOk && languageOk && breakpointsOk)
    {
      if env.NoWindow? then props.default
      else orientationOk && deviceTypeOk && languageOk && breakpointsOk
    }
  }
}
