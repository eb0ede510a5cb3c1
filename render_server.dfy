/** The decision rules `RenderServer` applies when it configures the Vulkan
    swapchain: which present mode, surface format, extent and image count to
    ask for, whether a device offers the extensions the renderer needs, and
    how the swapchain images are shared between queue families. The inputs
    are what the surface-capabilities query, the physical device's extension
    list and the graphics and present queues' families report, taken as
    plain data. */
module SwapchainSelection {
  import opened Wrappers

  /** Largest value of a `u32`. */
  const U32Max: nat := 0xFFFF_FFFF

  // ---------------------------------------------------------------------
  // Present mode (`choose_swap_present_mode`).

  datatype PresentMode = Immediate | Mailbox | Fifo | Relaxed

  /** `SupportedPresentModes`: one flag per mode. */
  datatype SupportedPresentModes = SupportedPresentModes(immediate: bool, mailbox: bool, fifo: bool, relaxed: bool)

  predicate Supports(modes: SupportedPresentModes, mode: PresentMode) {
    match mode
    case Immediate => modes.immediate
    case Mailbox => modes.mailbox
    case Fifo => modes.fifo
    case Relaxed => modes.relaxed
  }

  /** The renderer's order of preference; Relaxed is never asked for. */
  function Preference(mode: PresentMode): nat {
    match mode
    case Mailbox => 3
    case Immediate => 2
    case Fifo => 1
    case Relaxed => 0
  }

  /** The most preferred supported mode, with Fifo as the fallback that is
      chosen whether or not it is reported (every Vulkan surface must
      support Fifo). */
  function ChooseSwapPresentMode(modes: SupportedPresentModes): (mode: PresentMode)
    ensures mode != Relaxed
    ensures mode == Fifo || Supports(modes, mode)
    ensures forall other :: other != Relaxed && Supports(modes, other) ==> Preference(other) <= Preference(mode)
  {
    if modes.mailbox then Mailbox
    else if modes.immediate then Immediate
    else Fifo
  }

  /** The two ensures of ChooseSwapPresentMode single out its answer: no
      other mode is the fallback or supported and at least as preferred as
      every supported mode. */
  lemma PresentModeIsUnique(modes: SupportedPresentModes, mode: PresentMode)
    requires mode != Relaxed
    requires mode == Fifo || Supports(modes, mode)
    requires forall other :: other != Relaxed && Supports(modes, other) ==> Preference(other) <= Preference(mode)
    ensures mode == ChooseSwapPresentMode(modes)
  {
    var chosen := ChooseSwapPresentMode(modes);
    if chosen != Fifo {
      assert Preference(chosen) <= Preference(mode);
    }
  }

  // ---------------------------------------------------------------------
  // Surface capabilities.

  /** A width and a height (`[u32; 2]`). */
  datatype Extent = Extent(width: nat, height: nat)

  /** `OtherFormat(code)` stands for any Vulkan format other than
      B8G8R8A8Unorm; its code never names B8G8R8A8Unorm itself. */
  datatype Format = B8G8R8A8Unorm | OtherFormat(code: nat)

  /** `OtherColorSpace(code)` stands for any colour space other than
      SrgbNonLinear; its code never names SrgbNonLinear itself. */
  datatype ColorSpace = SrgbNonLinear | OtherColorSpace(code: nat)

  /** One (format, colour space) pair the surface supports. */
  datatype SurfaceFormat = SurfaceFormat(format: Format, colorSpace: ColorSpace)

  /** The fields of `Capabilities` the selection rules read. */
  datatype Capabilities = Capabilities(
    minImageCount: nat,
    maxImageCount: Option<nat>,
    currentExtent: Option<Extent>,
    minImageExtent: Extent,
    maxImageExtent: Extent,
    supportedFormats: seq<SurfaceFormat>,
    presentModes: SupportedPresentModes)

  // ---------------------------------------------------------------------
  // Surface format (`choose_swap_surface_format`).

  /** The pair the renderer looks for. */
  predicate IsPreferred(f: SurfaceFormat) {
    f.format == B8G8R8A8Unorm && f.colorSpace == SrgbNonLinear
  }

  /** `Iterator::find` over the formats: the index of the first preferred
      pair, if there is one. */
  function FindPreferred(formats: seq<SurfaceFormat>): (r: Option<nat>)
    ensures r.Some? ==> r.value < |formats| && IsPreferred(formats[r.value])
    ensures r.Some? ==> forall j :: 0 <= j < r.value ==> !IsPreferred(formats[j])
    ensures r.None? ==> forall j :: 0 <= j < |formats| ==> !IsPreferred(formats[j])
  {
    if formats == [] then None
    else if IsPreferred(formats[0]) then Some(0)
    else match FindPreferred(formats[1..])
      case None => None
      case Some(i) => Some(i + 1)
  }

  /** The first preferred pair if the surface offers one, otherwise the first
      pair reported. An empty list panics on `[0]`; the renderer only picks
      devices that report at least one format. */
  function ChooseSwapSurfaceFormat(formats: seq<SurfaceFormat>): (f: SurfaceFormat)
    requires |formats| > 0
    ensures f in formats
    ensures IsPreferred(f) <==> exists j :: 0 <= j < |formats| && IsPreferred(formats[j])
    ensures (forall j :: 0 <= j < |formats| ==> !IsPreferred(formats[j])) ==> f == formats[0]
  {
    match FindPreferred(formats)
    case Some(i) => formats[i]
    case None => formats[0]
  }

  // ---------------------------------------------------------------------
  // Extent (`choose_swap_extent`).

  /** The size asked for when the surface leaves it to the application. */
  const DefaultExtent: Extent := Extent(800, 600)

  function Max(a: nat, b: nat): nat { if a >= b then a else b }

  function Min(a: nat, b: nat): nat { if a <= b then a else b }

  /** `default.max(lo).min(hi)`: never above hi, and within [lo, hi]
      whenever that range is not empty; a default outside the range gives
      way to the nearer bound, and hi wins when the range is empty. */
  function ClampDimension(default: nat, lo: nat, hi: nat): (r: nat)
    ensures r <= hi
    ensures lo <= hi ==> lo <= r
    ensures lo <= default <= hi ==> r == default
    ensures default < lo && lo <= hi ==> r == lo
    ensures hi < default || hi < lo ==> r == hi
    ensures r == default || r == lo || r == hi
  {
    Min(Max(default, lo), hi)
  }

  /** The current extent when the surface fixes one, otherwise 800 x 600
      clamped, dimension by dimension, to the allowed extents. */
  function ChooseSwapExtent(caps: Capabilities): (e: Extent)
    ensures caps.currentExtent.Some? ==> e == caps.currentExtent.value
    ensures caps.currentExtent.None? ==>
      e.width <= caps.maxImageExtent.width && e.height <= caps.maxImageExtent.height
    ensures caps.currentExtent.None? && caps.minImageExtent.width <= caps.maxImageExtent.width ==>
      caps.minImageExtent.width <= e.width
    ensures caps.currentExtent.None? && caps.minImageExtent.height <= caps.maxImageExtent.height ==>
      caps.minImageExtent.height <= e.height
    ensures caps.currentExtent.None? && WithinExtents(DefaultExtent, caps) ==> e == DefaultExtent
    ensures caps.currentExtent.None? && caps.minImageExtent.width <= DefaultExtent.width <= caps.maxImageExtent.width ==>
      e.width == DefaultExtent.width
    ensures caps.currentExtent.None? && caps.minImageExtent.height <= DefaultExtent.height <= caps.maxImageExtent.height ==>
      e.height == DefaultExtent.height
    ensures caps.currentExtent.None? && DefaultExtent.width < caps.minImageExtent.width <= caps.maxImageExtent.width ==>
      e.width == caps.minImageExtent.width
    ensures caps.currentExtent.None? && (caps.maxImageExtent.width < DefaultExtent.width ||
                                         caps.maxImageExtent.width < caps.minImageExtent.width) ==>
      e.width == caps.maxImageExtent.width
    ensures caps.currentExtent.None? && DefaultExtent.height < caps.minImageExtent.height <= caps.maxImageExtent.height ==>
      e.height == caps.minImageExtent.height
    ensures caps.currentExtent.None? && (caps.maxImageExtent.height < DefaultExtent.height ||
                                         caps.maxImageExtent.height < caps.minImageExtent.height) ==>
      e.height == caps.maxImageExtent.height
  {
    match caps.currentExtent
    case Some(current) => current
    case None =>
      Extent(ClampDimension(DefaultExtent.width, caps.minImageExtent.width, caps.maxImageExtent.width),
             ClampDimension(DefaultExtent.height, caps.minImageExtent.height, caps.maxImageExtent.height))
  }

  /** The extent lies between the minimum and the maximum image extents. */
  predicate WithinExtents(e: Extent, caps: Capabilities) {
    caps.minImageExtent.width <= e.width <= caps.maxImageExtent.width &&
    caps.minImageExtent.height <= e.height <= caps.maxImageExtent.height
  }

  // ---------------------------------------------------------------------
  // Image count (inside `create_swap_chain`).

  /** One image more than the minimum, lowered to the maximum when the
      surface has one and the minimum plus one exceeds it. `+ 1` on the
      `u32` minimum is kept clear of overflow. */
  function ChooseImageCount(caps: Capabilities): (count: nat)
    requires caps.minImageCount < U32Max
    ensures caps.maxImageCount.None? ==> count == caps.minImageCount + 1
    ensures caps.maxImageCount.Some? ==> count <= caps.maxImageCount.value
    ensures caps.maxImageCount.Some? && caps.minImageCount + 1 > caps.maxImageCount.value ==>
      count == caps.maxImageCount.value
    ensures caps.maxImageCount.Some? && caps.minImageCount < caps.maxImageCount.value ==>
      count == caps.minImageCount + 1
    ensures caps.maxImageCount.Some? && caps.minImageCount <= caps.maxImageCount.value ==>
      caps.minImageCount <= count
    ensures count <= caps.minImageCount + 1
  {
    var count := caps.minImageCount + 1;
    if caps.maxImageCount.Some? && count > caps.maxImageCount.value then caps.maxImageCount.value
    else count
  }

  // ---------------------------------------------------------------------
  // Device extensions (`device_extensions`, `check_device_extension_support`).

  const KhrSwapchain: string := "VK_KHR_swapchain"

  /** The extensions the renderer enables on its logical device. */
  const DeviceExtensions: set<string> := {KhrSwapchain}

  /** `available ∩ required == required`: every required extension is
      available. */
  function ExtensionsSupported(available: set<string>, required: set<string>): (supported: bool)
    ensures supported <==> required <= available
  {
    available * required == required
  }

  /** A device qualifies exactly when it offers the swapchain extension. */
  function CheckDeviceExtensionSupport(available: set<string>): (supported: bool)
    ensures supported <==> DeviceExtensions <= available
    ensures supported <==> KhrSwapchain in available
  {
    ExtensionsSupported(available, DeviceExtensions)
  }

  // ---------------------------------------------------------------------
  // Sharing mode (inside `create_swap_chain`).

  /** How the swapchain images are shared between queue families. Exclusive
      images belong to the family of the graphics queue, which uses them
      first; concurrent images list the families that use them. */
  datatype SharingMode = Exclusive(owner: nat) | Concurrent(families: seq<nat>)

  /** Concurrent over both queues exactly when the graphics and present
      queues come from different families, exclusive otherwise. */
  function ChooseSharingMode(graphicsFamily: nat, presentFamily: nat): (mode: SharingMode)
    ensures mode.Concurrent? <==> graphicsFamily != presentFamily
    ensures mode.Exclusive? ==> mode.owner == graphicsFamily
    ensures mode.Concurrent? ==> mode.families == [graphicsFamily, presentFamily]
  {
    if graphicsFamily != presentFamily then Concurrent([graphicsFamily, presentFamily])
    else Exclusive(graphicsFamily)
  }

  /** Queues of the family may use images shared this way. */
  predicate MayAccess(mode: SharingMode, family: nat) {
    match mode
    case Exclusive(owner) => family == owner
    case Concurrent(families) => family in families
  }

  /** Vulkan's rule for concurrent sharing: at least two families, none
      listed twice. */
  predicate WellFormedSharing(mode: SharingMode) {
    match mode
    case Exclusive(_) => true
    case Concurrent(families) =>
      |families| >= 2 && forall i, j :: 0 <= i < j < |families| ==> families[i] != families[j]
  }

  /** Both queues may use the images, exactly these families may, and the
      sharing mode is one Vulkan accepts. */
  lemma SharingCoversBothQueues(graphicsFamily: nat, presentFamily: nat)
    ensures var mode := ChooseSharingMode(graphicsFamily, presentFamily);
      WellFormedSharing(mode) &&
      (forall family :: MayAccess(mode, family) <==> family == graphicsFamily || family == presentFamily)
  {
    var mode := ChooseSharingMode(graphicsFamily, presentFamily);
    if mode.Concurrent? {
      assert mode.families == [graphicsFamily, presentFamily];
    }
  }

  // ---------------------------------------------------------------------
  // The parameters `create_swap_chain` passes to `Swapchain::new`.

  datatype SwapchainParameters = SwapchainParameters(
    imageCount: nat,
    surfaceFormat: SurfaceFormat,
    extent: Extent,
    sharing: SharingMode,
    presentMode: PresentMode)

  /** Every parameter is taken from what the surface reports: a reported
      format, an image count within the reported bounds, an extent within
      the reported extents, a mode the surface supports, and images both
      queues may use. */
  function ChooseSwapchainParameters(caps: Capabilities, graphicsFamily: nat, presentFamily: nat): (p: SwapchainParameters)
    requires |caps.supportedFormats| > 0
    requires caps.minImageCount < U32Max
    ensures p.surfaceFormat in caps.supportedFormats
    ensures caps.maxImageCount.Some? && caps.minImageCount <= caps.maxImageCount.value ==>
      caps.minImageCount <= p.imageCount <= caps.maxImageCount.value
    ensures caps.presentModes.fifo ==> Supports(caps.presentModes, p.presentMode)
    ensures (caps.currentExtent.None? && caps.minImageExtent.width <= caps.maxImageExtent.width &&
             caps.minImageExtent.height <= caps.maxImageExtent.height) ==> WithinExtents(p.extent, caps)
    ensures MayAccess(p.sharing, graphicsFamily) && MayAccess(p.sharing, presentFamily)
  {
    SharingCoversBothQueues(graphicsFamily, presentFamily);
    SwapchainParameters(
      ChooseImageCount(caps),
      ChooseSwapSurfaceFormat(caps.supportedFormats),
      ChooseSwapExtent(caps),
      ChooseSharingMode(graphicsFamily, presentFamily),
      ChooseSwapPresentMode(caps.presentModes))
  }
}
