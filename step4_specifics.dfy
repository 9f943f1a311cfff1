/** Step 4 of the wizard: the release history, two coupled check boxes and an optional
    previous distributor. */
module Step4Specifics {
  import opened Common
  import opened ReleaseStore

  /** The form's values, starting from the store's specifics. */
  class SpecificsForm {
    const store: Store
    var brandNew: bool
    var previouslyReleased: bool
    var previousDistribution: Option<string>

    constructor(store: Store)
      ensures this.store == store
      ensures brandNew == store.specifics.brandNew
      ensures previouslyReleased == store.specifics.previouslyReleased
      ensures previousDistribution == store.specifics.previousDistribution
    {
      this.store := store;
      brandNew := store.specifics.brandNew;
      previouslyReleased := store.specifics.previouslyReleased;
      previousDistribution := store.specifics.previousDistribution;
    }

    /** The two values are never both true. */
    predicate Exclusive()
      reads this
    {
      !(brandNew && previouslyReleased)
    }

    /** The brand-new box shows `brandNew`; the previously-released box shows `!brandNew`,
        not the value it edits. */
    function BrandNewShown(): (shown: bool)
      reads this
      ensures shown <==> brandNew
    {
      brandNew
    }

    function PreviouslyReleasedShown(): (shown: bool)
      reads this
      ensures shown <==> !brandNew
    {
      !brandNew
    }

    /** The previous-distributor field is rendered only for a release that is not brand new. */
    function DistributorFieldShown(): (shown: bool)
      reads this
      ensures shown <==> !brandNew
    {
      !brandNew
    }

    /** A click on the brand-new box: it takes the opposite of what it shows, and checking it
        clears the other value. */
    method ClickBrandNew()
      modifies this
      ensures brandNew == !old(BrandNewShown())
      ensures brandNew ==> !previouslyReleased
      ensures !brandNew ==> previouslyReleased == old(previouslyReleased)
      ensures previousDistribution == old(previousDistribution)
      ensures old(Exclusive()) ==> Exclusive()
    {
      var checked := !BrandNewShown();
      brandNew := checked;
      if checked {
        previouslyReleased := false;
      }
    }

    /** A click on the previously-released box: it takes the opposite of what it shows, and
        checking it clears brand new. */
    method ClickPreviouslyReleased()
      modifies this
      ensures previouslyReleased == !old(PreviouslyReleasedShown())
      ensures previouslyReleased ==> !brandNew
      ensures !previouslyReleased ==> brandNew == old(brandNew)
      ensures previousDistribution == old(previousDistribution)
      ensures Exclusive()
    {
      var checked := !PreviouslyReleasedShown();
      previouslyReleased := checked;
      if checked {
        brandNew := false;
      }
    }

    method EditDistribution(v: string)
      modifies this
      ensures previousDistribution == Some(v)
      ensures brandNew == old(brandNew) && previouslyReleased == old(previouslyReleased)
    {
      previousDistribution := Some(v);
    }

    function Data(): SpecificsPatch
      reads this
    {
      SpecificsPatch(Some(previousDistribution), Some(brandNew), Some(previouslyReleased))
    }

    /** `onSubmit`: the values are sent as JSON; `ok` is the PATCH's outcome. On success they
        replace the store's specifics and the wizard moves to step 5. */
    method Submit(ok: bool) returns (sent: Specifics)
      modifies store
      ensures sent == Specifics(previousDistribution, brandNew, previouslyReleased)
      ensures ok ==> store.State() == old(store.State()).(specifics := sent, step := 5)
      ensures !ok ==> store.State() == old(store.State())
    {
      sent := Specifics(previousDistribution, brandNew, previouslyReleased);
      if ok {
        store.SetSpecifics(Data());
        store.SetStep(5);
      }
    }

    method Back()
      modifies store
      ensures store.State() == old(store.State()).(step := 3)
    {
      store.SetStep(3);
    }
  }

  /** Unchecking brand new from the initial values leaves both values false while the
      previously-released box shows as checked. */
  method UncheckBrandNewFromStart(store: Store) returns (form: SpecificsForm)
    requires store.State() == Initial
    ensures form.PreviouslyReleasedShown() && !form.previouslyReleased && !form.brandNew
  {
    form := new SpecificsForm(store);
    form.ClickBrandNew();
  }
}
