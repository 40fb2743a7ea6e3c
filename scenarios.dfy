/**
 Worked settlements for single employees, with concrete dates and amounts.
 */
module Scenarios {
  import opened Calendar
  import opened Settlement

  /** Starts on 15 June 2024 with a base salary of 10000. */
  function JuneStarter(): Employee
  {
    Employee(1, "Deniz", "Kaya", Date(2024, 6, 15), 10000.0)
  }

  /** One advance of 1000 in June 2024, none in July. */
  function JuneAdvance(): Store
  {
    Store(map[], [Advance(1, 1, Date(2024, 6, 20), 1000.0, "")])
  }

  /** The June advance, and 12000 advanced in July 2024, more than July's salary. */
  function JulyOverdraw(): Store
  {
    Store(map[], [Advance(1, 1, Date(2024, 6, 20), 1000.0, ""), Advance(2, 1, Date(2024, 7, 5), 12000.0, "")])
  }

  /** June has 30 days, so a start on the 15th is paid 16/30 of the month: 16000/3 less the 1000 advanced. */
  lemma StartMonthSettlement()
    ensures ProrationFactor(JuneStarter().startDate) == 16.0 / 30.0
    ensures RemainingSalary(JuneStarter(), JuneAdvance(), 6, 2024) == 13000.0 / 3.0
  {
    assert TotalAdvancesForMonth(JuneAdvance().advances, 1, 6, 2024) == 1000.0;
  }

  /** July carries June's 13000/3 and adds the full salary, with nothing advanced. */
  lemma NextMonthSettlement()
    ensures CarriedBalance(JuneStarter(), JuneAdvance(), 7, 2024) == 13000.0 / 3.0
    ensures RemainingSalary(JuneStarter(), JuneAdvance(), 7, 2024) == 13000.0 / 3.0 + 10000.0
  {
    CarryForwardStartYear(JuneStarter(), JuneAdvance(), 6);
    StartMonthSettlement();
    assert TotalAdvancesForMonth(JuneAdvance().advances, 1, 7, 2024) == 0.0;
  }

  /** Advancing 12000 against a 10000 salary in July leaves a carry 2000 lower in August. */
  lemma OverdrawnMonthReducesCarry()
    ensures CarriedBalance(JuneStarter(), JulyOverdraw(), 8, 2024)
            == CarriedBalance(JuneStarter(), JulyOverdraw(), 7, 2024) - 2000.0
    ensures CarriedBalance(JuneStarter(), JulyOverdraw(), 8, 2024) == 13000.0 / 3.0 - 2000.0
  {
    var e, db := JuneStarter(), JulyOverdraw();
    assert TotalAdvancesForMonth(db.advances, 1, 6, 2024) == 1000.0;
    assert TotalAdvancesForMonth(db.advances, 1, 7, 2024) == 12000.0;
    CarryStep(e, db, 7, 2024);
    CarryForwardStartYear(e, db, 6);
  }

  /** February has 29 days in the leap year 2024 and 28 in 2023. */
  lemma FebruaryProration()
    ensures ProrationFactor(Date(2024, 2, 10)) == 20.0 / 29.0
    ensures ProrationFactor(Date(2023, 2, 10)) == 19.0 / 28.0
    ensures ProrationFactor(Date(1900, 2, 10)) == 19.0 / 28.0
    ensures ProrationFactor(Date(2000, 2, 10)) == 20.0 / 29.0
  {
  }

  /** Starts on 15 December 2024: in 2025 the carry is December's 17/31 plus each full month of 2025. */
  lemma DecemberStarterNextYear()
    ensures CarriedBalance(Employee(2, "Ece", "Arslan", Date(2024, 12, 15), 10000.0), Store(map[], []), 3, 2025)
            == 10000.0 * 17.0 / 31.0 + 20000.0
  {
    var e, db := Employee(2, "Ece", "Arslan", Date(2024, 12, 15), 10000.0), Store(map[], []);
    assert db.advances == [];
    OtherYearCarry(e, db, 3, 2025);
  }
}
