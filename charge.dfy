/**
 * The charge status decoder: a three-way classification of the two charger
 * lines of one input snapshot.
 */
module Charge {
  import opened Gpio

  /** The three results the decoder can report. */
  datatype ChargeStatus = NoCharger | Charging | Full

  const CHGDET_PIN: Pin := 19
  const CHGSTDBY_PIN: Pin := 36

  /**
   * No supply on the charger-standby line means no charger, whatever the
   * charge-detect line says; with a supply, a low charge-detect line means
   * the battery is charging and a high one that it is full.
   */
  function ChgStatus(io: bv64): (r: ChargeStatus)
    ensures r == NoCharger <==> !Bit(io, CHGSTDBY_PIN)
    ensures r == Charging <==> Bit(io, CHGSTDBY_PIN) && !Bit(io, CHGDET_PIN)
    ensures r == Full <==> Bit(io, CHGSTDBY_PIN) && Bit(io, CHGDET_PIN)
  {
    if io & GPIO_CHGSTDBY == 0 then
      NoCharger
    else if io & GPIO_CHGDET == 0 then
      Charging
    else
      Full
  }

  /** The status reads only the two charger lines: snapshots that agree on them agree on the status. */
  lemma ChgStatusReadsOnlyChargerLines(a: bv64, b: bv64)
    requires a & (GPIO_CHGSTDBY | GPIO_CHGDET) == b & (GPIO_CHGSTDBY | GPIO_CHGDET)
    ensures ChgStatus(a) == ChgStatus(b)
  {
  }

  /** In terms of the two input registers: charger-standby is bit 4 of bank 1, charge-detect bit 19 of bank 0. */
  lemma ChgStatusOfBanks(bank1: bv32, bank0: bv32)
    ensures ChgStatus(Snapshot(bank1, bank0)) ==
              if bank1 & (1 << 4) == 0 then NoCharger
              else if bank0 & (1 << 19) == 0 then Charging
              else Full
  {
  }
}
