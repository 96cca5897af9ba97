/** The service-health dashboard (src/app/page.tsx): each service is probed
    at its health endpoint and classified, the summary counts are taken over
    the probed list, the grid is filtered by category, and a single card can
    be refreshed on its own. The network probe is an input. */
module Dashboard {
  import opened Common

  datatype ServiceStatus = Online | Offline | Error | Checking

  datatype ServiceCategory =
    Authentication | Healthcare | Management | Financial | Hr | Documentation | Other

  datatype Service = Service(
    id: string,
    name: string,
    url: string,
    port: int,
    status: ServiceStatus,
    description: string,
    icon: string,
    category: ServiceCategory,
    healthEndpoint: string,          // "" when not given
    lastChecked: Option<Timestamp>,
    responseTime: Option<int>,
    version: string
  )

  /** How the `fetch` of the health endpoint ended. */
  datatype FetchOutcome =
    | ResponseOk        // a response with `ok` set (status 200..299)
    | ResponseNotOk     // any other response
    | FetchThrew        // network failure or the 5-second abort

  /** One probe: its outcome, the elapsed milliseconds and the clock reading
      stored as `lastChecked`. */
  datatype Probe = Probe(outcome: FetchOutcome, elapsedMs: int, checkedAt: Timestamp)

  /** One call of the health check's `fetch`: what it gives for the address
      it is sent to. The network is an input. */
  type Fetch = string -> Probe

  /** The summary counts (`avgResponseTime` is not modelled). */
  datatype Stats = Stats(totalServices: nat, onlineServices: nat, offlineServices: nat, errorServices: nat)

  const InitialStats := Stats(0, 0, 0, 0)

  /** The address a service's health probe is sent to: the service URL
      followed by its own health path, or by the default `/api/health` when
      it has none. */
  function HealthUrl(s: Service): (r: string)
    ensures Truthy(s.healthEndpoint) ==> r == s.url + s.healthEndpoint
    ensures !Truthy(s.healthEndpoint) ==> r == s.url + "/api/health"
  {
    s.url + (if Truthy(s.healthEndpoint) then s.healthEndpoint else "/api/health")
  }

  /** `checkServiceHealth`: the service is probed at its health address; an
      ok response is ONLINE, another response is ERROR, a thrown fetch is
      OFFLINE; the elapsed time and the check time are recorded and every
      other field is kept. */
  function CheckServiceHealth(s: Service, fetch: Fetch): (r: Service)
    ensures fetch(HealthUrl(s)).outcome == ResponseOk <==> r.status == Online
    ensures fetch(HealthUrl(s)).outcome == ResponseNotOk <==> r.status == Error
    ensures fetch(HealthUrl(s)).outcome == FetchThrew <==> r.status == Offline
    ensures r.responseTime == Some(fetch(HealthUrl(s)).elapsedMs)
    ensures r.lastChecked == Some(fetch(HealthUrl(s)).checkedAt)
    ensures r.(status := s.status, responseTime := s.responseTime, lastChecked := s.lastChecked) == s
  {
    var p := fetch(HealthUrl(s));
    var status := match p.outcome
      case ResponseOk => Online
      case ResponseNotOk => Error
      case FetchThrew => Offline;
    s.(status := status, responseTime := Some(p.elapsedMs), lastChecked := Some(p.checkedAt))
  }

  /** Every service checked by its own `fetch` call, in list order. */
  function CheckAll(services: seq<Service>, probes: seq<Fetch>): (r: seq<Service>)
    requires |probes| == |services|
    ensures |r| == |services|
    ensures forall i :: 0 <= i < |r| ==> r[i] == CheckServiceHealth(services[i], probes[i])
  {
    seq(|services|, i requires 0 <= i < |services| => CheckServiceHealth(services[i], probes[i]))
  }

  /** The status of each service, in list order. */
  function StatusesOf(services: seq<Service>): (r: seq<ServiceStatus>)
    ensures |r| == |services| && forall i :: 0 <= i < |r| ==> r[i] == services[i].status
  {
    seq(|services|, i requires 0 <= i < |services| => services[i].status)
  }

  /** The number of services whose status is `st`. */
  function CountStatus(services: seq<Service>, st: ServiceStatus): (n: nat)
    ensures n <= |services|
    ensures n == multiset(StatusesOf(services))[st]
  {
    if services == [] then 0
    else
      var init := services[..|services| - 1];
      assert StatusesOf(services) == StatusesOf(init) + [services[|services| - 1].status];
      CountStatus(init, st) + (if services[|services| - 1].status == st then 1 else 0)
  }

  /** The counts `checkAllServicesHealth` stores: the list length and the
      number of services in each of the three settled states. */
  function ComputeStats(services: seq<Service>): (r: Stats)
    ensures r.totalServices == |services|
    ensures r.onlineServices == multiset(StatusesOf(services))[Online]
    ensures r.offlineServices == multiset(StatusesOf(services))[Offline]
    ensures r.errorServices == multiset(StatusesOf(services))[Error]
    ensures r.onlineServices <= r.totalServices && r.offlineServices <= r.totalServices
    ensures r.errorServices <= r.totalServices
  {
    Stats(|services|, CountStatus(services, Online), CountStatus(services, Offline), CountStatus(services, Error))
  }

  /** No service is still in the CHECKING state. */
  predicate NoneChecking(services: seq<Service>) {
    forall i :: 0 <= i < |services| ==> services[i].status != Checking
  }

  /** When no service is CHECKING, the online, offline and error counts
      partition the list. */
  lemma {:induction false} StatusCountsPartition(services: seq<Service>)
    requires NoneChecking(services)
    ensures CountStatus(services, Online) + CountStatus(services, Offline) + CountStatus(services, Error)
            == |services|
  {
    if services != [] {
      StatusCountsPartition(services[..|services| - 1]);
    }
  }

  /** After a full check the three counts add up to the total. */
  lemma CheckedStatsAddUp(services: seq<Service>, probes: seq<Fetch>)
    requires |probes| == |services|
    ensures var st := ComputeStats(CheckAll(services, probes));
      st.onlineServices + st.offlineServices + st.errorServices == st.totalServices
  {
    StatusCountsPartition(CheckAll(services, probes));
  }

  /** The category tab that is selected. */
  datatype CategoryFilter = All | Only(category: ServiceCategory)

  /** The services of category `c`, in list order. */
  function KeepCategory(services: seq<Service>, c: ServiceCategory): (r: seq<Service>)
    ensures SubsequenceOf(r, services)
    ensures forall s :: s in r <==> s in services && s.category == c
  {
    if services == [] then []
    else
      var rest := KeepCategory(services[1..], c);
      if services[0].category == c then
        assert ([services[0]] + rest)[1..] == rest;
        [services[0]] + rest
      else
        assert rest == [] || SubsequenceOf(rest, services[1..]);
        rest
  }

  /** `filteredServices`: all services, or those of the chosen category in order. */
  function FilterServices(services: seq<Service>, sel: CategoryFilter): (r: seq<Service>)
    ensures sel.All? ==> r == services
    ensures sel.Only? ==> SubsequenceOf(r, services)
    ensures sel.Only? ==> forall s :: s in r <==> s in services && s.category == sel.category
  {
    if sel.All? then services else KeepCategory(services, sel.category)
  }

  /** The count on a category tab. */
  function CategoryCount(services: seq<Service>, c: ServiceCategory): nat {
    |KeepCategory(services, c)|
  }

  /** The filter keeps each service of the category exactly as often as it
      occurs in the list, and no other service. */
  lemma {:induction false} KeepCategoryMultiplicity(services: seq<Service>, c: ServiceCategory, s: Service)
    ensures multiset(KeepCategory(services, c))[s] == if s.category == c then multiset(services)[s] else 0
  {
    if services != [] {
      KeepCategoryMultiplicity(services[1..], c, s);
      assert services == [services[0]] + services[1..];
    }
  }

  /** The counts on the seven category tabs add up to the count on the All tab. */
  lemma {:induction false} CategoryCountsAddUp(services: seq<Service>)
    ensures CategoryCount(services, Authentication) + CategoryCount(services, Healthcare)
          + CategoryCount(services, Management) + CategoryCount(services, Financial)
          + CategoryCount(services, Hr) + CategoryCount(services, Documentation)
          + CategoryCount(services, Other) == |services|
  {
    if services != [] {
      CategoryCountsAddUp(services[1..]);
    }
  }

  /** Every entry carrying the refreshed service's id becomes the refreshed
      service; the others stay. */
  function Replace(services: seq<Service>, updated: Service): (r: seq<Service>)
    ensures |r| == |services|
    ensures forall i :: 0 <= i < |r| && services[i].id != updated.id ==> r[i] == services[i]
    ensures forall i :: 0 <= i < |r| && services[i].id == updated.id ==> r[i] == updated
  {
    seq(|services|, i requires 0 <= i < |services| => if services[i].id == updated.id then updated else services[i])
  }

  /** Identifiers are unique in the list. */
  ghost predicate UniqueIds(services: seq<Service>) {
    forall i, j :: 0 <= i < j < |services| ==> services[i].id != services[j].id
  }

  /** With unique identifiers, refreshing the service at position `k` changes
      that entry alone. */
  lemma ReplaceAt(services: seq<Service>, k: nat, fetch: Fetch)
    requires UniqueIds(services) && k < |services|
    ensures Replace(services, CheckServiceHealth(services[k], fetch))
         == services[k := CheckServiceHealth(services[k], fetch)]
  {
  }

  /** A refresh keeps every category count, and the grid keeps its shape. */
  lemma {:induction false} RefreshKeepsCategoryCounts(services: seq<Service>, s: Service, fetch: Fetch, c: ServiceCategory)
    requires forall i :: 0 <= i < |services| && services[i].id == s.id ==> services[i].category == s.category
    ensures CategoryCount(Replace(services, CheckServiceHealth(s, fetch)), c) == CategoryCount(services, c)
  {
    if services != [] {
      var u := CheckServiceHealth(s, fetch);
      var r := Replace(services, u);
      assert r[1..] == Replace(services[1..], u);
      RefreshKeepsCategoryCounts(services[1..], s, fetch, c);
    }
  }

  /** The dashboard page state. */
  class DashboardPage {
    var services: seq<Service>
    var stats: Stats
    var selectedCategory: CategoryFilter
    var isRefreshing: bool

    constructor (initial: seq<Service>)
      ensures services == initial && stats == InitialStats
      ensures selectedCategory == All && !isRefreshing
    {
      services := initial;
      stats := InitialStats;
      selectedCategory := All;
      isRefreshing := false;
    }

    /** The cards the grid shows: every service on the All tab, otherwise
        the services of the selected category in list order. */
    function Shown(): (r: seq<Service>)
      reads this
      ensures selectedCategory.All? ==> r == services
      ensures selectedCategory.Only? ==> SubsequenceOf(r, services)
      ensures selectedCategory.Only? ==>
        forall s :: s in r <==> s in services && s.category == selectedCategory.category
    {
      FilterServices(services, selectedCategory)
    }

    /** `checkAllServicesHealth`: every service is probed, the list replaced,
        and the counts taken over the new list. */
    method CheckAllServicesHealth(probes: seq<Fetch>)
      requires |probes| == |services|
      modifies this
      ensures services == CheckAll(old(services), probes)
      ensures stats == ComputeStats(services)
      ensures stats.onlineServices + stats.offlineServices + stats.errorServices == stats.totalServices
      ensures selectedCategory == old(selectedCategory) && !isRefreshing
    {
      isRefreshing := true;
      var updated := CheckAll(services, probes);
      services := updated;
      CheckedStatsAddUp(old(services), probes);
      stats := ComputeStats(updated);
      isRefreshing := false;
    }

    /** A card's refresh: probe that one service and put the result in place
        of every entry with its id. The counts are not recomputed. */
    method RefreshService(s: Service, fetch: Fetch)
      modifies this
      ensures services == Replace(old(services), CheckServiceHealth(s, fetch))
      ensures stats == old(stats) && selectedCategory == old(selectedCategory)
      ensures isRefreshing == old(isRefreshing)
    {
      services := Replace(services, CheckServiceHealth(s, fetch));
    }

    /** Choosing a tab. */
    method SelectCategory(sel: CategoryFilter)
      modifies this
      ensures selectedCategory == sel && services == old(services) && stats == old(stats)
      ensures isRefreshing == old(isRefreshing)
    {
      selectedCategory := sel;
    }
  }
}
