/**
 * flightmare-tracker's delay reasons: the reasons of the upstream railway
 * delay library are carried over into the tracker's own `Grund`, and each has
 * one English display text.
 */
module Grunds {

  /**
   * The upstream reason type. It is non-exhaustive: `Other` stands for every
   * variant it may add beyond the thirteen the tracker names.
   */
  datatype DbGrund =
    | FahrtFaelltAus
    | FaehrtHeuteNurBis(until: string)
    | VerzoegerungenImBetriebsablauf
    | Gleiswechsel
    | FahrtFaelltAusMitErsatzfahrt(replacement: string)
    | TechnischeStoerungenAmZug
    | VerspaetungEinesVorausfahrendenZuges
    | VerspaeteteBereitstellungDesZuges
    | Bauarbeiten
    | WitterungsbedingteStoerung
    | WeichenStoerung
    | AenderungImFahrtverlauf
    | Unwetter
    | Other(name: string)

  /** The tracker's `Grund`. */
  datatype Grund =
    | FahrtFaelltAus
    | FaehrtHeuteNurBis(until: string)
    | VerzoegerungenImBetriebsablauf
    | Gleiswechsel
    | FahrtFaelltAusMitErsatzfahrt(replacement: string)
    | TechnischeStoerungenAmZug
    | VerspaetungEinesVorausfahrendenZuges
    | VerspaeteteBereitstellungDesZuges
    | Bauarbeiten
    | WitterungsbedingteStoerung
    | WeichenStoerung
    | AenderungImFahrtverlauf
    | Unwetter

  /** The upstream variant of the same name as a tracker reason. */
  function Upstream(g: Grund): (d: DbGrund)
    ensures !d.Other?
  {
    match g
    case FahrtFaelltAus => DbGrund.FahrtFaelltAus
    case FaehrtHeuteNurBis(s) => DbGrund.FaehrtHeuteNurBis(s)
    case VerzoegerungenImBetriebsablauf => DbGrund.VerzoegerungenImBetriebsablauf
    case Gleiswechsel => DbGrund.Gleiswechsel
    case FahrtFaelltAusMitErsatzfahrt(s) => DbGrund.FahrtFaelltAusMitErsatzfahrt(s)
    case TechnischeStoerungenAmZug => DbGrund.TechnischeStoerungenAmZug
    case VerspaetungEinesVorausfahrendenZuges => DbGrund.VerspaetungEinesVorausfahrendenZuges
    case VerspaeteteBereitstellungDesZuges => DbGrund.VerspaeteteBereitstellungDesZuges
    case Bauarbeiten => DbGrund.Bauarbeiten
    case WitterungsbedingteStoerung => DbGrund.WitterungsbedingteStoerung
    case WeichenStoerung => DbGrund.WeichenStoerung
    case AenderungImFahrtverlauf => DbGrund.AenderungImFahrtverlauf
    case Unwetter => DbGrund.Unwetter
  }

  /** `From<DbGrund> for Grund`: each named variant to its namesake, payloads kept, anything else to operational delays. */
  function FromDb(d: DbGrund): (g: Grund)
    ensures !d.Other? ==> Upstream(g) == d
    ensures d.Other? ==> g == Grund.VerzoegerungenImBetriebsablauf
    ensures d.FaehrtHeuteNurBis? ==> g == Grund.FaehrtHeuteNurBis(d.until)
    ensures d.FahrtFaelltAusMitErsatzfahrt? ==> g == Grund.FahrtFaelltAusMitErsatzfahrt(d.replacement)
  {
    match d
    case FahrtFaelltAus => Grund.FahrtFaelltAus
    case FaehrtHeuteNurBis(s) => Grund.FaehrtHeuteNurBis(s)
    case VerzoegerungenImBetriebsablauf => Grund.VerzoegerungenImBetriebsablauf
    case Gleiswechsel => Grund.Gleiswechsel
    case FahrtFaelltAusMitErsatzfahrt(s) => Grund.FahrtFaelltAusMitErsatzfahrt(s)
    case TechnischeStoerungenAmZug => Grund.TechnischeStoerungenAmZug
    case VerspaetungEinesVorausfahrendenZuges => Grund.VerspaetungEinesVorausfahrendenZuges
    case VerspaeteteBereitstellungDesZuges => Grund.VerspaeteteBereitstellungDesZuges
    case Bauarbeiten => Grund.Bauarbeiten
    case WitterungsbedingteStoerung => Grund.WitterungsbedingteStoerung
    case WeichenStoerung => Grund.WeichenStoerung
    case AenderungImFahrtverlauf => Grund.AenderungImFahrtverlauf
    case Unwetter => Grund.Unwetter
    case Other(_) => Grund.VerzoegerungenImBetriebsablauf
  }

  /** Every tracker reason comes back from its upstream namesake. */
  lemma FromDbUpstream(g: Grund)
    ensures FromDb(Upstream(g)) == g
  {
  }

  /** Only the namesake, and for operational delays also an unnamed upstream variant, lead to a reason. */
  lemma FromDbPreimage(d: DbGrund, g: Grund)
    requires FromDb(d) == g
    ensures d == Upstream(g) || (d.Other? && g == Grund.VerzoegerungenImBetriebsablauf)
  {
  }

  const OnlyGoesTo: string := "Flight only goes to "
  const Replacement: string := "Flight cancelled, replacement flight "

  /** `Display for Grund`. */
  function Display(g: Grund): (text: string)
    ensures g.FaehrtHeuteNurBis? ==> text == OnlyGoesTo + g.until
    ensures g.FahrtFaelltAusMitErsatzfahrt? ==> text == Replacement + g.replacement
    ensures g == Grund.Bauarbeiten ==> text == "Runway maintenance"
    ensures |text| > 0
  {
    match g
    case FahrtFaelltAus => "Flight cancelled"
    case FaehrtHeuteNurBis(s) => OnlyGoesTo + s
    case VerzoegerungenImBetriebsablauf => "Operational delays"
    case Gleiswechsel => "Gate change"
    case FahrtFaelltAusMitErsatzfahrt(s) => Replacement + s
    case TechnischeStoerungenAmZug => "Technical difficulties with aircraft"
    case VerspaetungEinesVorausfahrendenZuges => "Delay due to previous flight"
    case VerspaeteteBereitstellungDesZuges => "Delayed aircraft preparation"
    case Bauarbeiten => "Runway maintenance"
    case WitterungsbedingteStoerung => "Weather-related delay"
    case WeichenStoerung => "Ground equipment malfunction"
    case AenderungImFahrtverlauf => "Flight path changes"
    case Unwetter => "Severe weather conditions"
  }

  /** The reasons without a payload. */
  predicate Fixed(g: Grund)
  {
    !g.FaehrtHeuteNurBis? && !g.FahrtFaelltAusMitErsatzfahrt?
  }

  /** The fixed texts differ from one another. */
  lemma FixedDisplayInjective(g: Grund, h: Grund)
    requires Fixed(g) && Fixed(h) && Display(g) == Display(h)
    ensures g == h
  {
    var a, b := Display(g), Display(h);
    assert a[0] == b[0] && |a| == |b|;
    if |a| > 6 {
      assert a[7] == b[7];
    }
  }

  /** No fixed text is as long as the replacement prefix, and none starts like the "only goes to" prefix. */
  lemma FixedDisplayHasNoPrefix(g: Grund)
    requires Fixed(g)
    ensures |Display(g)| < |Replacement|
    ensures |Display(g)| < 8 || Display(g)[0] != OnlyGoesTo[0] || Display(g)[7] != OnlyGoesTo[7]
  {
  }

  /** The display text determines the reason, payload included: no two reasons print alike. */
  lemma DisplayInjective(g: Grund, h: Grund)
    requires Display(g) == Display(h)
    ensures g == h
  {
    if Fixed(g) && Fixed(h) {
      FixedDisplayInjective(g, h);
    } else if Fixed(g) {
      FixedDisplayHasNoPrefix(g);
    } else if Fixed(h) {
      FixedDisplayHasNoPrefix(h);
    } else {
      assert Display(g)[7] == (if g.FaehrtHeuteNurBis? then 'o' else 'c');
      assert Display(h)[7] == (if h.FaehrtHeuteNurBis? then 'o' else 'c');
      assert g.FaehrtHeuteNurBis? ==> Display(g)[|OnlyGoesTo|..] == g.until;
      assert h.FaehrtHeuteNurBis? ==> Display(h)[|OnlyGoesTo|..] == h.until;
      assert g.FahrtFaelltAusMitErsatzfahrt? ==> Display(g)[|Replacement|..] == g.replacement;
      assert h.FahrtFaelltAusMitErsatzfahrt? ==> Display(h)[|Replacement|..] == h.replacement;
    }
  }
}
