/** What an ad slot renders. The decision reads the ads configuration and the
    consent flags; the configuration as shipped is `Shipped`, but every rule
    is stated for any configuration. */
module AdsSlot {
  import opened JsText
  import opened JsValues

  datatype Slot = Slot(adSlot: string, minHeight: int, labelText: string)

  datatype AdsConfig = AdsConfig(adsEnabled: bool, placeholderMode: bool, client: string, slots: map<string, Slot>)

  /** `ADS_CONFIG` in src/config/adsConfig.js. */
  const Shipped: AdsConfig :=
    AdsConfig(false, true, "ca-pub-XXXXXXXXXXXXXXXX",
              map["belowCharts" := Slot("XXXXXXXXXX", 250, "Sponsored"),
                  "betweenSections" := Slot("XXXXXXXXXX", 180, "Sponsored"),
                  "footer" := Slot("XXXXXXXXXX", 120, "Sponsored")])

  /** The marker of a client id that has not been replaced yet. */
  const Marker: string := "XXXXXXXX"

  /** `shouldRenderRealAd`. */
  predicate ShouldRenderRealAd(cfg: AdsConfig, canServeAds: bool) {
    cfg.adsEnabled && canServeAds && !Contains(cfg.client, Marker)
  }

  /** What `ensureAdSenseScript` does, given whether the script tag exists. */
  datatype ScriptOutcome = Refused | AlreadyLoaded | Injected

  /** `ensureAdSenseScript(clientId)`: an empty or placeholder id is refused
      before the document is looked at. */
  function EnsureAdSenseScript(clientId: string, existing: bool): (r: ScriptOutcome)
    ensures r.Refused? <==> clientId == "" || Contains(clientId, Marker)
    ensures !r.Refused? ==> (r.AlreadyLoaded? <==> existing)
  {
    if clientId == "" || Contains(clientId, Marker) then Refused
    else if existing then AlreadyLoaded
    else Injected
  }

  /** The effect pushes an ad request exactly when a real ad is due and the
      client id is usable. */
  predicate EffectPushes(cfg: AdsConfig, canServeAds: bool, existing: bool) {
    ShouldRenderRealAd(cfg, canServeAds) && !EnsureAdSenseScript(cfg.client, existing).Refused?
  }

  lemma EffectPushesMeaning(cfg: AdsConfig, canServeAds: bool, existing: bool)
    ensures EffectPushes(cfg, canServeAds, existing) <==> ShouldRenderRealAd(cfg, canServeAds) && cfg.client != ""
  {
  }

  /** The slot's body: the placeholder, the real `<ins>` element, or an
      empty box. */
  datatype Body = Placeholder(labelText: Option<string>) | RealAd(client: string, adSlot: Option<string>, npa: bool) | EmptyBox

  datatype SlotView = SlotView(minHeight: int, body: Body, caption: string)

  const NotChosenSuffix: string := " (ads not loaded until you choose)"

  /** `slot?.label || fallback` (`label` is a reserved word in Dafny, hence
      `labelText`). */
  function LabelOr(slot: Option<Slot>, fallback: string): (s: string)
    ensures slot.Some? && slot.value.labelText != "" ==> s == slot.value.labelText
    ensures !(slot.Some? && slot.value.labelText != "") ==> s == fallback
  {
    if slot.Some? && slot.value.labelText != "" then slot.value.labelText else fallback
  }

  function SlotFor(cfg: AdsConfig, placement: string): Option<Slot> {
    if placement in cfg.slots then Some(cfg.slots[placement]) else None
  }

  /** `AdsSlot({ placement })` with the consent flags of the context. The
      placeholder shows exactly when placeholder mode is on and no real ad is
      due; the real ad exactly when it is due; the empty box otherwise. A
      real ad carries `data-npa` exactly when personalisation is not
      allowed. The reserved height is the slot's own, or 180 for an unknown
      placement; the caption ends in the not-chosen suffix exactly when no
      choice is recorded. */
  function Render(cfg: AdsConfig, placement: string, canServeAds: bool, allowPersonalizedAds: bool, hasChoice: JsVal): (v: SlotView)
    ensures v.body.Placeholder? <==> cfg.placeholderMode && !ShouldRenderRealAd(cfg, canServeAds)
    ensures v.body.RealAd? <==> ShouldRenderRealAd(cfg, canServeAds)
    ensures v.body.EmptyBox? <==> !cfg.placeholderMode && !ShouldRenderRealAd(cfg, canServeAds)
    ensures v.body.RealAd? ==> (v.body.npa <==> !allowPersonalizedAds) && v.body.client == cfg.client
    ensures v.minHeight == (if placement in cfg.slots then cfg.slots[placement].minHeight else 180)
    ensures v.caption == LabelOr(SlotFor(cfg, placement), "Sponsored") + (if Truthy(hasChoice) then "" else NotChosenSuffix)
  {
    var slot := SlotFor(cfg, placement);
    var due := ShouldRenderRealAd(cfg, canServeAds);
    SlotView(
      if slot.Some? then slot.value.minHeight else 180,
      if cfg.placeholderMode && !due then Placeholder(if slot.Some? then Some(slot.value.labelText) else None)
      else if due then RealAd(cfg.client, if slot.Some? then Some(slot.value.adSlot) else None, !allowPersonalizedAds)
      else EmptyBox,
      LabelOr(slot, "Sponsored") + (if !Truthy(hasChoice) then NotChosenSuffix else ""))
  }

  /** The shipped client id still holds the marker. */
  lemma ShippedClientIsPlaceholder()
    ensures Contains(Shipped.client, Marker)
  {
    assert OccursAt(Shipped.client, Marker, 7);
  }

  /** As shipped, no real ad is ever rendered or requested: every slot shows
      the placeholder, whatever the consent. */
  lemma ShippedShowsPlaceholders(placement: string, canServeAds: bool, allowPersonalizedAds: bool, hasChoice: JsVal, existing: bool)
    ensures !ShouldRenderRealAd(Shipped, canServeAds)
    ensures EnsureAdSenseScript(Shipped.client, existing).Refused?
    ensures Render(Shipped, placement, canServeAds, allowPersonalizedAds, hasChoice).body.Placeholder?
  {
    ShippedClientIsPlaceholder();
  }
}
