/**
  Model of internal/calc/sizing.go, which carries its own copy of the region
  label switch. The copy is written out here as the switch it is, and is
  shown to agree with the table-driven model in `CalcPricing` on every code.
 */
module CalcSizing {
  import CalcPricing

  /** `regionLabelFromCode` as the second file spells it. */
  function RegionLabelFromCode(code: string): (text: string)
    ensures text == CalcPricing.RegionLabelFromCode(code)
  {
    if code == "us-east-1" then
      Entry0(code);
      "US East (N. Virginia) [us-east-1]"
    else if code == "us-east-2" then
      Entry1(code);
      "US East (Ohio) [us-east-2]"
    else if code == "us-west-2" then
      Entry2(code);
      "US West (Oregon) [us-west-2]"
    else if code == "eu-west-1" then
      Entry3(code);
      "EU (Ireland) [eu-west-1]"
    else if code == "sa-east-1" then
      Entry4(code);
      "South America (S\U{E3}o Paulo) [sa-east-1]"
    else
      Unknown(code);
      code
  }

  lemma Entry0(code: string)
    requires code == "us-east-1"
    ensures CalcPricing.RegionLabelFromCode(code) == "US East (N. Virginia) [us-east-1]"
  {
    var r := CalcPricing.Regions[0];
    Spelled0();
    assert CalcPricing.RegionLabelFromCode(code) == CalcPricing.Caption(r) by {
      CalcPricing.RegionLabelOfEntry(0);
    }
  }

  lemma Spelled0()
    ensures CalcPricing.Regions[0].code == "us-east-1"
    ensures CalcPricing.Caption(CalcPricing.Regions[0]) == "US East (N. Virginia) [us-east-1]"
  {
  }

  lemma Entry1(code: string)
    requires code == "us-east-2"
    ensures CalcPricing.RegionLabelFromCode(code) == "US East (Ohio) [us-east-2]"
  {
    var r := CalcPricing.Regions[1];
    Spelled1();
    assert CalcPricing.RegionLabelFromCode(code) == CalcPricing.Caption(r) by {
      CalcPricing.RegionLabelOfEntry(1);
    }
  }

  lemma Spelled1()
    ensures CalcPricing.Regions[1].code == "us-east-2"
    ensures CalcPricing.Caption(CalcPricing.Regions[1]) == "US East (Ohio) [us-east-2]"
  {
  }

  lemma Entry2(code: string)
    requires code == "us-west-2"
    ensures CalcPricing.RegionLabelFromCode(code) == "US West (Oregon) [us-west-2]"
  {
    var r := CalcPricing.Regions[2];
    Spelled2();
    assert CalcPricing.RegionLabelFromCode(code) == CalcPricing.Caption(r) by {
      CalcPricing.RegionLabelOfEntry(2);
    }
  }

  lemma Spelled2()
    ensures CalcPricing.Regions[2].code == "us-west-2"
    ensures CalcPricing.Caption(CalcPricing.Regions[2]) == "US West (Oregon) [us-west-2]"
  {
  }

  lemma Entry3(code: string)
    requires code == "eu-west-1"
    ensures CalcPricing.RegionLabelFromCode(code) == "EU (Ireland) [eu-west-1]"
  {
    var r := CalcPricing.Regions[3];
    Spelled3();
    assert CalcPricing.RegionLabelFromCode(code) == CalcPricing.Caption(r) by {
      CalcPricing.RegionLabelOfEntry(3);
    }
  }

  lemma Spelled3()
    ensures CalcPricing.Regions[3].code == "eu-west-1"
    ensures CalcPricing.Caption(CalcPricing.Regions[3]) == "EU (Ireland) [eu-west-1]"
  {
  }

  lemma Entry4(code: string)
    requires code == "sa-east-1"
    ensures CalcPricing.RegionLabelFromCode(code) == "South America (S\U{E3}o Paulo) [sa-east-1]"
  {
    var r := CalcPricing.Regions[4];
    Spelled4();
    assert CalcPricing.RegionLabelFromCode(code) == CalcPricing.Caption(r) by {
      CalcPricing.RegionLabelOfEntry(4);
    }
  }

  lemma Spelled4()
    ensures CalcPricing.Regions[4].code == "sa-east-1"
    ensures CalcPricing.Caption(CalcPricing.Regions[4]) == "South America (S\U{E3}o Paulo) [sa-east-1]"
  {
  }

  /** A code the switch does not list is not in the table either. */
  lemma Unknown(code: string)
    requires code != "us-east-1" && code != "us-east-2" && code != "us-west-2"
    requires code != "eu-west-1" && code != "sa-east-1"
    ensures CalcPricing.RegionLabelFromCode(code) == code
  {
    assert !CalcPricing.Known(code);
  }

  /** The copy keeps the same promises: known codes get their bracketed label, others pass through. */
  lemma RegionLabelFromCodeFacts(code: string)
    ensures CalcPricing.Known(code) ==> CalcPricing.LabelledAs(RegionLabelFromCode(code), code)
    ensures !CalcPricing.Known(code) ==> RegionLabelFromCode(code) == code
  {
  }
}
