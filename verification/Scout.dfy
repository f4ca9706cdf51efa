/** From discovered capabilities, through adaptation and registration, to the scheduler's matching. */
module Scout {
  import opened Wrappers
  import opened Registry
  import opened Tasks

  datatype ResourceValue = IntVal(i: int) | DoubleVal(d: real) | StringVal(s: string) | BoolVal(b: bool)

  datatype DeviceCapability = DeviceCapability(
    resourceName: string,
    valueType: string,
    resourceValue: Option<ResourceValue>)

  const INSTALLED := "installed_app_"
  const CREATIVE := "creative_capability_"
  const EXECUTION := "_execution"

  /** What the scan of the raw capabilities remembers. */
  datatype Scan = Scan(cores: int, gpu: bool, ram: real, latency: real, apps: seq<string>)

  const NOTHING_SEEN := Scan(0, false, 0.0, 100.0, [])

  function Noted(acc: Scan, cap: DeviceCapability): Scan {
    var name, value := cap.resourceName, cap.resourceValue;
    if INSTALLED <= name then acc.(apps := acc.apps + [name[|INSTALLED|..]])
    else if name == "cpu_cores" then
      if value.Some? && value.value.IntVal? then acc.(cores := value.value.i) else acc
    else if name == "has_cuda" || name == "has_metal" then
      if value == Some(BoolVal(true)) then acc.(gpu := true) else acc
    else if name == "total_memory_gb" then
      if value.Some? && value.value.DoubleVal? then acc.(ram := value.value.d) else acc
    else if name == "link_latency_ms" then
      if value.Some? && value.value.DoubleVal? then acc.(latency := value.value.d) else acc
    else acc
  }

  function Scanned(raw: seq<DeviceCapability>): Scan {
    if raw == [] then NOTHING_SEEN else Noted(Scanned(raw[..|raw| - 1]), raw[|raw| - 1])
  }

  function CpuClass(scan: Scan): string {
    if scan.cores > 16 then "heavy_parallel" else if scan.cores >= 8 then "multicore_standard" else "low_power_edge"
  }

  function GpuClass(scan: Scan, onMac: bool): string {
    if scan.gpu then if onMac then "unified_gpu" else "vram_gpu" else "none"
  }

  function MemoryTier(scan: Scan): string {
    if scan.ram > 32.0 then "high_throughput" else if scan.ram >= 16.0 then "standard_capacity" else "constrained"
  }

  function Labelled(name: string, text: string): DeviceCapability {
    DeviceCapability(name, "string", Some(StringVal(text)))
  }

  function Creative(app: string): DeviceCapability {
    Labelled(CREATIVE + app, app + EXECUTION)
  }

  function Classes(scan: Scan, onMac: bool): seq<DeviceCapability> {
    [Labelled("cpu_class", CpuClass(scan)), Labelled("accelerator_class", GpuClass(scan, onMac)),
     Labelled("memory_tier", MemoryTier(scan)),
     DeviceCapability("low_latency_ready", "boolean", Some(BoolVal(scan.latency < 2.0)))]
  }

  function Creatives(apps: seq<string>): seq<DeviceCapability> {
    seq(|apps|, i requires 0 <= i < |apps| => Creative(apps[i]))
  }

  function Adapted(raw: seq<DeviceCapability>, onMac: bool): seq<DeviceCapability> {
    Classes(Scanned(raw), onMac) + Creatives(Scanned(raw).apps)
  }

  method ScanRaw(raw: seq<DeviceCapability>) returns (scan: Scan)
    ensures scan == Scanned(raw)
  {
    var cores, gpu, ram, latency, apps := 0, false, 0.0, 100.0, [];
    for i := 0 to |raw|
      invariant Scan(cores, gpu, ram, latency, apps) == Scanned(raw[..i])
    {
      assert raw[..i + 1][..i] == raw[..i];
      var name, value := raw[i].resourceName, raw[i].resourceValue;
      if INSTALLED <= name {
        apps := apps + [name[|INSTALLED|..]];
      } else if name == "cpu_cores" {
        if value.Some? && value.value.IntVal? {
          cores := value.value.i;
        }
      } else if name == "has_cuda" || name == "has_metal" {
        if value.Some? && value.value.BoolVal? {
          if value.value.b {
            gpu := true;
          }
        }
      } else if name == "total_memory_gb" {
        if value.Some? && value.value.DoubleVal? {
          ram := value.value.d;
        }
      } else if name == "link_latency_ms" {
        if value.Some? && value.value.DoubleVal? {
          latency := value.value.d;
        }
      }
    }
    assert raw[..|raw|] == raw;
    scan := Scan(cores, gpu, ram, latency, apps);
  }

  method AdaptToMediumProfile(raw: seq<DeviceCapability>, onMac: bool) returns (adapted: seq<DeviceCapability>)
    ensures adapted == Adapted(raw, onMac)
  {
    var scan := ScanRaw(raw);
    adapted := Classes(scan, onMac);
    for i := 0 to |scan.apps|
      invariant |adapted| == 4 + i
      invariant adapted == Classes(scan, onMac) + Creatives(scan.apps)[..i]
    {
      adapted := adapted + [Creative(scan.apps[i])];
    }
  }

  // ----- what the adaptation says of the raw list -----

  predicate IsInt(cap: DeviceCapability, name: string) {
    cap.resourceName == name && cap.resourceValue.Some? && cap.resourceValue.value.IntVal?
  }

  predicate IsDouble(cap: DeviceCapability, name: string) {
    cap.resourceName == name && cap.resourceValue.Some? && cap.resourceValue.value.DoubleVal?
  }

  /** Position `i` is the last of that name with an integer, respectively a double, and holds `v`. */
  ghost predicate LastInt(raw: seq<DeviceCapability>, name: string, v: int, i: nat) {
    && i < |raw| && IsInt(raw[i], name) && raw[i].resourceValue.value.i == v
    && forall j | i < j < |raw| :: !IsInt(raw[j], name)
  }

  ghost predicate LastDouble(raw: seq<DeviceCapability>, name: string, v: real, i: nat) {
    && i < |raw| && IsDouble(raw[i], name) && raw[i].resourceValue.value.d == v
    && forall j | i < j < |raw| :: !IsDouble(raw[j], name)
  }

  lemma {:induction false} CoresNoted(acc: Scan, cap: DeviceCapability)
    ensures Noted(acc, cap).cores == if IsInt(cap, "cpu_cores") then cap.resourceValue.value.i else acc.cores
  {
    assert INSTALLED[0] != "cpu_cores"[0];
    assert "has_cuda"[0] != "cpu_cores"[0] && "has_metal"[0] != "cpu_cores"[0];
  }

  lemma {:induction false} CoresAreLast(raw: seq<DeviceCapability>)
    ensures if exists cap | cap in raw :: IsInt(cap, "cpu_cores")
            then exists i: nat :: LastInt(raw, "cpu_cores", Scanned(raw).cores, i)
            else Scanned(raw).cores == 0
  {
    if raw != [] {
      var n := |raw| - 1;
      var before, cap := raw[..n], raw[n];
      assert raw == before + [cap];
      CoresAreLast(before);
      CoresNoted(Scanned(before), cap);
      if IsInt(cap, "cpu_cores") {
        assert LastInt(raw, "cpu_cores", Scanned(raw).cores, n);
      } else if i: nat :| LastInt(before, "cpu_cores", Scanned(before).cores, i) {
        assert forall j | 0 <= j < n :: raw[j] == before[j];
        assert LastInt(raw, "cpu_cores", Scanned(raw).cores, i);
      }
    }
  }

  lemma {:induction false} MemoryNoted(acc: Scan, cap: DeviceCapability)
    ensures Noted(acc, cap).ram == if IsDouble(cap, "total_memory_gb") then cap.resourceValue.value.d else acc.ram
  {
    assert INSTALLED[0] != "total_memory_gb"[0] && "cpu_cores"[0] != "total_memory_gb"[0];
    assert "has_cuda"[0] != "total_memory_gb"[0] && "has_metal"[0] != "total_memory_gb"[0];
  }

  lemma {:induction false} MemoryIsLast(raw: seq<DeviceCapability>)
    ensures if exists cap | cap in raw :: IsDouble(cap, "total_memory_gb")
            then exists i: nat :: LastDouble(raw, "total_memory_gb", Scanned(raw).ram, i)
            else Scanned(raw).ram == 0.0
  {
    if raw != [] {
      var n := |raw| - 1;
      var before, cap := raw[..n], raw[n];
      assert raw == before + [cap];
      MemoryIsLast(before);
      MemoryNoted(Scanned(before), cap);
      if IsDouble(cap, "total_memory_gb") {
        assert LastDouble(raw, "total_memory_gb", Scanned(raw).ram, n);
      } else if i: nat :| LastDouble(before, "total_memory_gb", Scanned(before).ram, i) {
        assert forall j | 0 <= j < n :: raw[j] == before[j];
        assert LastDouble(raw, "total_memory_gb", Scanned(raw).ram, i);
      }
    }
  }

  lemma {:induction false} LatencyNoted(acc: Scan, cap: DeviceCapability)
    ensures Noted(acc, cap).latency ==
      if IsDouble(cap, "link_latency_ms") then cap.resourceValue.value.d else acc.latency
  {
    assert INSTALLED[0] != "link_latency_ms"[0] && "cpu_cores"[0] != "link_latency_ms"[0];
    assert "has_cuda"[0] != "link_latency_ms"[0] && "has_metal"[0] != "link_latency_ms"[0];
    assert "total_memory_gb"[0] != "link_latency_ms"[0];
  }

  lemma {:induction false} LatencyIsLast(raw: seq<DeviceCapability>)
    ensures if exists cap | cap in raw :: IsDouble(cap, "link_latency_ms")
            then exists i: nat :: LastDouble(raw, "link_latency_ms", Scanned(raw).latency, i)
            else Scanned(raw).latency == 100.0
  {
    if raw != [] {
      var n := |raw| - 1;
      var before, cap := raw[..n], raw[n];
      assert raw == before + [cap];
      LatencyIsLast(before);
      LatencyNoted(Scanned(before), cap);
      if IsDouble(cap, "link_latency_ms") {
        assert LastDouble(raw, "link_latency_ms", Scanned(raw).latency, n);
      } else if i: nat :| LastDouble(before, "link_latency_ms", Scanned(before).latency, i) {
        assert forall j | 0 <= j < n :: raw[j] == before[j];
        assert LastDouble(raw, "link_latency_ms", Scanned(raw).latency, i);
      }
    }
  }

  lemma {:induction false} GpuIffSeen(raw: seq<DeviceCapability>)
    ensures Scanned(raw).gpu <==> exists cap | cap in raw ::
      (cap.resourceName == "has_cuda" || cap.resourceName == "has_metal") && cap.resourceValue == Some(BoolVal(true))
  {
    if raw != [] {
      var n := |raw| - 1;
      GpuIffSeen(raw[..n]);
      assert raw == raw[..n] + [raw[n]];
      assert INSTALLED[0] != "has_cuda"[0] && INSTALLED[0] != "has_metal"[0];
    }
  }

  lemma {:induction false} AppsNoted(acc: Scan, cap: DeviceCapability)
    ensures var name := cap.resourceName;
      Noted(acc, cap).apps == acc.apps + if INSTALLED <= name then [name[|INSTALLED|..]] else []
  {
  }

  /** The applications stand in the order in which they were found. */
  lemma {:induction false} AppsInOrder(raw: seq<DeviceCapability>, more: seq<DeviceCapability>)
    ensures Scanned(raw + more).apps == Scanned(raw).apps + Scanned(more).apps
  {
    if more == [] {
      assert raw + more == raw;
    } else {
      var n := |more| - 1;
      AppsInOrder(raw, more[..n]);
      assert (raw + more)[..|raw + more| - 1] == raw + more[..n] && (raw + more)[|raw + more| - 1] == more[n];
      AppsNoted(Scanned(raw + more[..n]), more[n]);
      AppsNoted(Scanned(more[..n]), more[n]);
    }
  }

  predicate Says(cap: DeviceCapability, name: string, text: string) {
    cap == DeviceCapability(name, "string", Some(StringVal(text)))
  }

  predicate Differ(a: string, b: string, c: string) {
    a != b && b != c && a != c
  }

  lemma {:induction false} CpuTells(scan: Scan, onMac: bool)
    ensures var cap := Classes(scan, onMac)[0];
      && (Says(cap, "cpu_class", "heavy_parallel") <==> scan.cores > 16)
      && (Says(cap, "cpu_class", "multicore_standard") <==> 8 <= scan.cores <= 16)
      && (Says(cap, "cpu_class", "low_power_edge") <==> scan.cores < 8)
  {
    assert Differ("heavy_parallel", "multicore_standard", "low_power_edge") by {
      assert "heavy_parallel"[0] == 'h' && "multicore_standard"[0] == 'm' && "low_power_edge"[0] == 'l';
    }
  }

  lemma {:induction false} AcceleratorTells(scan: Scan, onMac: bool)
    ensures var cap := Classes(scan, onMac)[1];
      && (Says(cap, "accelerator_class", "unified_gpu") <==> scan.gpu && onMac)
      && (Says(cap, "accelerator_class", "vram_gpu") <==> scan.gpu && !onMac)
      && (Says(cap, "accelerator_class", "none") <==> !scan.gpu)
  {
    assert Differ("unified_gpu", "vram_gpu", "none") by {
      assert "unified_gpu"[0] == 'u' && "vram_gpu"[0] == 'v' && "none"[0] == 'n';
    }
  }

  lemma {:induction false} MemoryTells(scan: Scan, onMac: bool)
    ensures var cap := Classes(scan, onMac)[2];
      && (Says(cap, "memory_tier", "high_throughput") <==> scan.ram > 32.0)
      && (Says(cap, "memory_tier", "standard_capacity") <==> 16.0 <= scan.ram <= 32.0)
      && (Says(cap, "memory_tier", "constrained") <==> scan.ram < 16.0)
  {
    assert Differ("high_throughput", "standard_capacity", "constrained") by {
      assert "high_throughput"[0] == 'h' && "standard_capacity"[0] == 's' && "constrained"[0] == 'c';
    }
  }

  /** After the three labels: whether the link is fast, and an execution entry for each application, in order. */
  lemma {:induction false} RestTells(raw: seq<DeviceCapability>, onMac: bool)
    ensures var adapted, scan := Adapted(raw, onMac), Scanned(raw);
      && |adapted| == 4 + |scan.apps| && adapted[..4] == Classes(scan, onMac)
      && adapted[3] == DeviceCapability("low_latency_ready", "boolean", Some(BoolVal(scan.latency < 2.0)))
      && forall i | 0 <= i < |scan.apps| ::
           Says(adapted[4 + i], "creative_capability_" + scan.apps[i], scan.apps[i] + "_execution")
  {
  }

  // ----- adapting again changes nothing -----

  predicate Unread(name: string) {
    && !(INSTALLED <= name)
    && name !in ["cpu_cores", "has_cuda", "has_metal", "total_memory_gb", "link_latency_ms"]
  }

  lemma {:induction false} UnreadTail(raw: seq<DeviceCapability>, more: seq<DeviceCapability>)
    requires forall i | 0 <= i < |more| :: Unread(more[i].resourceName)
    ensures Scanned(raw + more) == Scanned(raw)
  {
    if more == [] {
      assert raw + more == raw;
    } else {
      var n := |more| - 1;
      assert (raw + more)[..|raw + more| - 1] == raw + more[..n];
      UnreadTail(raw, more[..n]);
      assert Unread(more[n].resourceName);
    }
  }

  lemma {:induction false} CreativeIsUnread(app: string)
    ensures Unread(CREATIVE + app)
  {
    var name := CREATIVE + app;
    assert name[0] == 'c' && name[1] == 'r';
  }

  lemma {:induction false} ClassIsUnread(scan: Scan, onMac: bool, i: nat)
    requires i < 4
    ensures Unread(Classes(scan, onMac)[i].resourceName)
  {
    var name := Classes(scan, onMac)[i].resourceName;
    assert name[0] == if i == 0 then 'c' else if i == 1 then 'a' else if i == 2 then 'm' else 'l';
    assert i == 0 ==> name[2] == 'u';
  }

  lemma {:induction false} AdaptedIsUnread(raw: seq<DeviceCapability>, onMac: bool)
    ensures forall i | 0 <= i < |Adapted(raw, onMac)| :: Unread(Adapted(raw, onMac)[i].resourceName)
  {
    var scan := Scanned(raw);
    forall i | 0 <= i < |Adapted(raw, onMac)|
      ensures Unread(Adapted(raw, onMac)[i].resourceName)
    {
      if i >= 4 {
        CreativeIsUnread(scan.apps[i - 4]);
      } else {
        ClassIsUnread(scan, onMac, i);
      }
    }
  }

  /** Adaptation reads nothing that it writes: adapting its own output along with the raw input gives the same. */
  lemma {:induction false} AdaptingAgainChangesNothing(raw: seq<DeviceCapability>, onMac: bool)
    ensures Adapted(raw + Adapted(raw, onMac), onMac) == Adapted(raw, onMac)
  {
    AdaptedIsUnread(raw, onMac);
    UnreadTail(raw, Adapted(raw, onMac));
  }

  // ----- which requirements a registered node meets -----

  /** The text a value is registered with; how numbers are printed is left open. */
  function Rendered(value: Option<ResourceValue>, number: ResourceValue -> string): string {
    match value
    case Some(BoolVal(b)) => if b then "true" else "false"
    case Some(StringVal(s)) => s
    case Some(v) => number(v)
    case None => ""
  }

  function Core(cap: DeviceCapability, number: ResourceValue -> string): Capability {
    Capability(cap.resourceName, cap.valueType, Rendered(cap.resourceValue, number))
  }

  function Cores(caps: seq<DeviceCapability>, number: ResourceValue -> string): seq<Capability> {
    seq(|caps|, i requires 0 <= i < |caps| => Core(caps[i], number))
  }

  predicate EndsInExecution(s: string) {
    |s| >= |EXECUTION| && s[|s| - |EXECUTION|..] == EXECUTION
  }

  lemma {:induction false} AppsAreInstalled(raw: seq<DeviceCapability>, app: string)
    ensures app in Scanned(raw).apps <==> exists cap | cap in raw :: cap.resourceName == INSTALLED + app
  {
    if raw != [] {
      var n := |raw| - 1;
      var name := raw[n].resourceName;
      AppsAreInstalled(raw[..n], app);
      assert raw == raw[..n] + [raw[n]];
      assert INSTALLED <= name ==> name == INSTALLED + name[|INSTALLED|..];
      assert name == INSTALLED + app ==> name[|INSTALLED|..] == app;
    }
  }

  /** What the scout reports is the raw list with its adaptation appended. */
  function Reported(raw: seq<DeviceCapability>, onMac: bool): seq<DeviceCapability> {
    raw + Adapted(raw, onMac)
  }

  lemma {:induction false} ClassesDoNotExecute(scan: Scan, onMac: bool, number: ResourceValue -> string, i: nat)
    requires i < 4
    ensures !EndsInExecution(Core(Classes(scan, onMac)[i], number).value)
  {
  }

  lemma {:induction false} ExecutesOnly(app: string, other: string)
    ensures EndsInExecution(app + EXECUTION)
    ensures other + EXECUTION == app + EXECUTION <==> other == app
  {
  }

  /** In a list of front matter followed by creative entries, only the latter print as executions. */
  lemma {:induction false} ValueAt(front: seq<DeviceCapability>, apps: seq<string>,
                                   number: ResourceValue -> string, app: string, i: nat)
    requires forall j | 0 <= j < |front| :: !EndsInExecution(Core(front[j], number).value)
    requires i < |front| + |apps|
    ensures Core((front + Creatives(apps))[i], number).value == app + EXECUTION <==>
      i >= |front| && apps[i - |front|] == app
  {
    ExecutesOnly(app, app);
    if i >= |front| {
      ExecutesOnly(app, apps[i - |front|]);
      assert (front + Creatives(apps))[i] == Creative(apps[i - |front|]);
    } else {
      assert (front + Creatives(apps))[i] == front[i];
    }
  }

  lemma {:induction false} FrontDoesNotExecute(raw: seq<DeviceCapability>, classes: seq<DeviceCapability>,
                                              number: ResourceValue -> string)
    requires forall cap | cap in raw :: cap.resourceValue.Some? ==> !cap.resourceValue.value.StringVal?
    requires forall v :: !EndsInExecution(number(v))
    requires forall j | 0 <= j < |classes| :: !EndsInExecution(Core(classes[j], number).value)
    ensures forall j | 0 <= j < |raw + classes| :: !EndsInExecution(Core((raw + classes)[j], number).value)
  {
  }

  lemma {:induction false} Regroup(a: seq<DeviceCapability>, b: seq<DeviceCapability>, c: seq<DeviceCapability>)
    ensures a + (b + c) == a + b + c
  {
  }

  lemma {:induction false} ReportedValue(raw: seq<DeviceCapability>, onMac: bool, number: ResourceValue -> string,
                                        app: string, i: nat)
    requires i < |Reported(raw, onMac)|
    requires forall cap | cap in raw :: cap.resourceValue.Some? ==> !cap.resourceValue.value.StringVal?
    requires forall v :: !EndsInExecution(number(v))
    ensures Core(Reported(raw, onMac)[i], number).value == app + EXECUTION <==>
      i >= |raw| + 4 && Scanned(raw).apps[i - |raw| - 4] == app
  {
    var scan := Scanned(raw);
    var classes := Classes(scan, onMac);
    forall j | 0 <= j < |classes|
      ensures !EndsInExecution(Core(classes[j], number).value)
    {
      ClassesDoNotExecute(scan, onMac, number, j);
    }
    FrontDoesNotExecute(raw, classes, number);
    Regroup(raw, classes, Creatives(scan.apps));
    ValueAt(raw + classes, scan.apps, number, app, i);
  }

  /** Some value of the report is `wanted` exactly when the scan found the application. */
  lemma {:induction false} ReportHoldsIff(report: seq<Capability>, apps: seq<string>, from: nat, app: string,
                                          wanted: string)
    requires |report| == from + |apps|
    requires forall i | 0 <= i < |report| :: report[i].value == wanted <==> i >= from && apps[i - from] == app
    ensures (exists c | c in report :: c.value == wanted) <==> app in apps
  {
    if app in apps {
      var j :| 0 <= j < |apps| && apps[j] == app;
      assert report[from + j] in report;
    }
  }

  /** One requirement is met exactly when the application behind it was discovered. */
  lemma {:induction false} RequirementMet(raw: seq<DeviceCapability>, onMac: bool,
                                          number: ResourceValue -> string, app: string)
    requires forall cap | cap in raw :: cap.resourceValue.Some? ==> !cap.resourceValue.value.StringVal?
    requires forall v :: !EndsInExecution(number(v))
    ensures (exists c | c in Cores(Reported(raw, onMac), number) :: c.value == app + EXECUTION)
       <==> (exists cap | cap in raw :: cap.resourceName == INSTALLED + app)
  {
    var report := Cores(Reported(raw, onMac), number);
    forall i: nat | i < |report|
      ensures report[i].value == app + EXECUTION <==> i >= |raw| + 4 && Scanned(raw).apps[i - |raw| - 4] == app
    {
      ReportedValue(raw, onMac, number, app, i);
    }
    ReportHoldsIff(report, Scanned(raw).apps, |raw| + 4, app, app + EXECUTION);
    AppsAreInstalled(raw, app);
  }

  function Requirements(apps: seq<string>): seq<string> {
    seq(|apps|, i requires 0 <= i < |apps| => apps[i] + EXECUTION)
  }

  /**
   * If the raw capabilities hold no strings and no number prints as something ending in "_execution",
   * the registered node fits a list of applications exactly when each of them was discovered on it.
   */
  lemma {:induction false} MatchesIffInstalled(raw: seq<DeviceCapability>, onMac: bool, number: ResourceValue -> string,
                            node: NodeProfile, apps: seq<string>)
    requires forall cap | cap in raw :: cap.resourceValue.Some? ==> !cap.resourceValue.value.StringVal?
    requires forall v :: !EndsInExecution(number(v))
    requires node.capabilities == Cores(Reported(raw, onMac), number)
    ensures Matches(node, Requirements(apps)) <==>
      forall app | app in apps :: exists cap | cap in raw :: cap.resourceName == INSTALLED + app
  {
    forall app
      ensures app + EXECUTION in Values(node) <==> exists cap | cap in raw :: cap.resourceName == INSTALLED + app
    {
      RequirementMet(raw, onMac, number, app);
      ValuesOf(node, app + EXECUTION);
    }
    MatchesIffEach(node, apps);
    if Matches(node, Requirements(apps)) {
      forall app | app in apps
        ensures exists cap | cap in raw :: cap.resourceName == INSTALLED + app
      {
        assert app + EXECUTION in Values(node);
      }
    } else {
      var app :| app in apps && app + EXECUTION !in Values(node);
      assert !exists cap | cap in raw :: cap.resourceName == INSTALLED + app;
    }
  }

  lemma {:induction false} MatchesIffEach(node: NodeProfile, apps: seq<string>)
    ensures Matches(node, Requirements(apps)) <==> forall app | app in apps :: app + EXECUTION in Values(node)
  {
    var required := Requirements(apps);
    forall app | app in apps
      ensures app + EXECUTION in required
    {
      var i :| 0 <= i < |apps| && apps[i] == app;
      assert required[i] in required;
    }
    forall r | r in required
      ensures exists app | app in apps :: r == app + EXECUTION
    {
      var i :| 0 <= i < |apps| && required[i] == r;
      assert apps[i] in apps;
    }
  }

  lemma {:induction false} ValuesOf(node: NodeProfile, value: string)
    ensures value in Values(node) <==> exists c | c in node.capabilities :: c.value == value
  {
    if c :| c in node.capabilities && c.value == value {
      var i :| 0 <= i < |node.capabilities| && node.capabilities[i] == c;
      assert Values(node)[i] == value;
    }
  }
}
