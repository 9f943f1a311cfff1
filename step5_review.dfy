/** Step 5 of the wizard: the review page and the final submission. */
module Step5Review {
  import opened Common
  import opened ReleaseStore
  import Step4Specifics

  /** The status change the page asks for: `PATCH /releases/{id}/status` with a status. The id
      is whatever the store holds, possibly none. */
  datatype StatusRequest = StatusRequest(releaseId: Option<int>, status: string)

  /** `handleSubmit`: the request always asks for 'pending'; `ok` is its outcome. On success
      the store is reset and the page moves to the release list; on failure nothing changes. */
  method HandleSubmit(store: Store, ok: bool) returns (request: StatusRequest, navigateTo: Option<string>)
    modifies store
    ensures request == StatusRequest(old(store.releaseId), "pending")
    ensures ok ==> store.State() == Initial && navigateTo == Some("/releases")
    ensures !ok ==> store.State() == old(store.State()) && navigateTo.None?
  {
    request := StatusRequest(store.releaseId, "pending");
    if ok {
      store.Reset();
      navigateTo := Some("/releases");
    } else {
      navigateTo := None;
    }
  }

  /** The history line of the specifics panel. */
  function HistoryLine(sp: Specifics): (line: string)
    ensures line == "New Release" <==> sp.brandNew
    ensures line == "Previously Released" <==> !sp.brandNew
  {
    if sp.brandNew then "New Release" else "Previously Released"
  }

  /** The previous distributor is listed only when it is a non-empty string. */
  predicate DistributorListed(sp: Specifics) {
    Truthy(sp.previousDistribution)
  }

  /** The label and value rows of the specifics panel: the status always, then the previous
      distributor when it is listed. */
  function SpecificsRows(sp: Specifics): (rows: seq<(string, string)>)
    ensures |rows| == if DistributorListed(sp) then 2 else 1
    ensures rows[0] == ("Status", HistoryLine(sp))
    ensures DistributorListed(sp) ==> rows[1] == ("Previous Distributor", sp.previousDistribution.value)
  {
    [("Status", HistoryLine(sp))] +
    if DistributorListed(sp) then [("Previous Distributor", sp.previousDistribution.value)] else []
  }

  /** Step 4 keeps a distributor typed while the release was marked not brand new, even after
      brand new is checked again, so the review shows a new release with a previous
      distributor. */
  method StaleDistributorReviewed(store: Store) returns (rows: seq<(string, string)>)
    requires store.State() == Initial
    modifies store
    ensures store.specifics == Specifics(Some("Label X"), true, false)
    ensures rows == [("Status", "New Release"), ("Previous Distributor", "Label X")]
  {
    var form := new Step4Specifics.SpecificsForm(store);
    form.ClickBrandNew();
    form.EditDistribution("Label X");
    form.ClickBrandNew();
    var sent := form.Submit(true);
    rows := SpecificsRows(store.specifics);
  }
}
