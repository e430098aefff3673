/** The form's data and the instruction prompt that `calculateResults`
    (src/app/page.jsx) builds from it before posting it to the chat endpoint. */
module Prompt {
  import opened Text

  /** One entry of a load list, as typed into the load dialog. */
  datatype Load = Load(magnitude: string, position: string)

  /** The five material inputs; all are free text. `momentOfInertia` has no
      input field on the page and so stays as it was initialised. */
  datatype MaterialProps = MaterialProps(
    length: string, width: string, height: string,
    youngsModulus: string, momentOfInertia: string)

  /** The three load lists, each in insertion order. */
  datatype Loads = Loads(pointLoads: seq<Load>, momentLoads: seq<Load>, distributedLoads: seq<Load>)

  const EmptyMaterialProps := MaterialProps("", "", "", "", "")
  const NoLoads := Loads([], [], [])

  // The fixed instruction text the prompt ends with. Each step header is a
  // constant of its own so that the prompt can be shown to contain it.

  const StepHeader1 := "Step 1: Initial Setup"
  const StepHeader2 := "Step 2: Reaction Forces"
  const StepHeader3 := "Step 3: Shear Force Analysis"
  const StepHeader4 := "Step 4: Bending Moment Analysis"
  const StepHeader5 := "Step 5: Deflection Analysis"

  const Request := "\n    \n    Please provide a clear step-by-step solution in plain text format:\n    \n    "
  const Step1Body :=
    "\n    - Write out the beam configuration and dimensions in simple terms"
    + "\n    - List the material properties in standard units"
    + "\n    - Describe the load conditions in a clear way\n    \n    "
  const Step2Body :=
    "\n    - Write the equilibrium equations in simple terms"
    + "\n    - Calculate the support reactions using basic math"
    + "\n    - Express all results in Newtons (N) or Newton-meters (Nm)\n    \n    "
  const Step3Body :=
    "\n    - Explain how the shear force varies along the beam"
    + "\n    - Calculate the maximum shear force in Newtons (N)"
    + "\n    - Specify where the maximum occurs\n    \n    "
  const Step4Body :=
    "\n    - Describe how the bending moment changes along the beam"
    + "\n    - Calculate the maximum bending moment in Newton-meters (Nm)"
    + "\n    - Note the location of maximum moment\n    \n    "
  const Step5Body :=
    "\n    - Calculate the maximum deflection in millimeters (mm)"
    + "\n    - Specify where the maximum deflection occurs"
    + "\n    - Provide a simple interpretation of the results\n\n    "
    + "Write all calculations in plain numbers and standard units. Avoid using mathematical notation or symbols. Express all results in a clear, readable format."

  /** The instruction part of the prompt, the same for every form. */
  const InstructionParts: seq<string> := [
    Request, StepHeader1, Step1Body, StepHeader2, Step2Body, StepHeader3, Step3Body,
    StepHeader4, Step4Body, StepHeader5, Step5Body]
  const Instructions := Concat(InstructionParts)

  /** The parts written one after another. */
  function Concat(parts: seq<string>): string {
    if parts == [] then "" else parts[0] + Concat(parts[1..])
  }

  /** One line of the description: a label, the field's raw text and a unit,
      on a new line indented by four spaces. */
  function Labelled(name: string, value: string, unit: string): string {
    "\n    " + name + value + unit
  }

  /** The description of the beam: each field's raw text after its label, with
      the unit appended, and each load list in the form `stringify` gives it
      (`JSON.stringify` in the source, not modelled). */
  function DescriptionParts(beamType: string, supportType: string, props: MaterialProps,
                            loads: Loads, stringify: seq<Load> -> string): seq<string>
  {
    [ "Calculate the beam analysis for:",
      Labelled("Beam Type: ", beamType, ""),
      Labelled("Support Type: ", supportType, ""),
      Labelled("Length: ", props.length, "m"),
      Labelled("Width: ", props.width, "m"),
      Labelled("Height: ", props.height, "m"),
      Labelled("Young's Modulus: ", props.youngsModulus, "GPa"),
      Labelled("Point Loads: ", stringify(loads.pointLoads), ""),
      Labelled("Moment Loads: ", stringify(loads.momentLoads), ""),
      Labelled("Distributed Loads: ", stringify(loads.distributedLoads), "") ]
  }

  function Description(beamType: string, supportType: string, props: MaterialProps,
                       loads: Loads, stringify: seq<Load> -> string): string
  {
    Concat(DescriptionParts(beamType, supportType, props, loads, stringify))
  }

  /** The prompt template of `calculateResults`. */
  function BuildPrompt(beamType: string, supportType: string, props: MaterialProps,
                       loads: Loads, stringify: seq<Load> -> string): string
  {
    Description(beamType, supportType, props, loads, stringify) + Instructions
  }

  lemma ContainsSelf(t: string)
    ensures Contains(t, t)
  {
    assert t <= t[0..];
  }

  lemma ContainsLeft(a: string, b: string, t: string)
    requires Contains(a, t)
    ensures Contains(a + b, t)
  {
    var i :| 0 <= i <= |a| && t <= a[i..];
    assert (a + b)[i..] == a[i..] + b;
  }

  lemma ContainsRight(a: string, b: string, t: string)
    requires Contains(b, t)
    ensures Contains(a + b, t)
  {
    var i :| 0 <= i <= |b| && t <= b[i..];
    assert (a + b)[|a| + i..] == b[i..];
  }

  /** A concatenation contains each of its parts. */
  lemma {:induction false} ConcatHasPart(parts: seq<string>, k: nat)
    requires k < |parts|
    ensures Contains(Concat(parts), parts[k])
  {
    if k == 0 {
      ContainsSelf(parts[0]);
      ContainsLeft(parts[0], Concat(parts[1..]), parts[0]);
    } else {
      ConcatHasPart(parts[1..], k - 1);
      ContainsRight(parts[0], Concat(parts[1..]), parts[k]);
    }
  }

  /** The fixed instructions name the five analysis steps. */
  lemma InstructionsHaveHeaders()
    ensures Contains(Instructions, StepHeader1) && Contains(Instructions, StepHeader2)
            && Contains(Instructions, StepHeader3) && Contains(Instructions, StepHeader4)
            && Contains(Instructions, StepHeader5)
  {
    assert Contains(Instructions, StepHeader1) by { ConcatHasPart(InstructionParts, 1); }
    assert Contains(Instructions, StepHeader2) by { ConcatHasPart(InstructionParts, 3); }
    assert Contains(Instructions, StepHeader3) by { ConcatHasPart(InstructionParts, 5); }
    assert Contains(Instructions, StepHeader4) by { ConcatHasPart(InstructionParts, 7); }
    assert Contains(Instructions, StepHeader5) by { ConcatHasPart(InstructionParts, 9); }
  }

  /** Whatever the field values, even all empty, the prompt ends with the
      fixed instructions and so names all five analysis steps. */
  lemma PromptHasStepHeaders(beamType: string, supportType: string, props: MaterialProps,
                             loads: Loads, stringify: seq<Load> -> string)
    ensures var p := BuildPrompt(beamType, supportType, props, loads, stringify);
            |p| >= |Instructions| && p[|p| - |Instructions|..] == Instructions
            && Contains(p, StepHeader1) && Contains(p, StepHeader2) && Contains(p, StepHeader3)
            && Contains(p, StepHeader4) && Contains(p, StepHeader5)
  {
    var d := Description(beamType, supportType, props, loads, stringify);
    assert (d + Instructions)[|d|..] == Instructions;
    InstructionsHaveHeaders();
    ContainsRight(d, Instructions, StepHeader1);
    ContainsRight(d, Instructions, StepHeader2);
    ContainsRight(d, Instructions, StepHeader3);
    ContainsRight(d, Instructions, StepHeader4);
    ContainsRight(d, Instructions, StepHeader5);
  }

  lemma PromptHasPart(beamType: string, supportType: string, props: MaterialProps,
                      loads: Loads, stringify: seq<Load> -> string, k: nat)
    requires k < 10
    ensures Contains(BuildPrompt(beamType, supportType, props, loads, stringify),
                     DescriptionParts(beamType, supportType, props, loads, stringify)[k])
  {
    var parts := DescriptionParts(beamType, supportType, props, loads, stringify);
    ConcatHasPart(parts, k);
    ContainsLeft(Concat(parts), Instructions, parts[k]);
  }

  /** The prompt carries every field's raw text at the start of a line, after
      the field's label and before the field's unit. */
  lemma PromptEmbedsFields(beamType: string, supportType: string, props: MaterialProps,
                           loads: Loads, stringify: seq<Load> -> string)
    ensures var p := BuildPrompt(beamType, supportType, props, loads, stringify);
            Contains(p, Labelled("Beam Type: ", beamType, ""))
            && Contains(p, Labelled("Support Type: ", supportType, ""))
            && Contains(p, Labelled("Length: ", props.length, "m"))
            && Contains(p, Labelled("Width: ", props.width, "m"))
            && Contains(p, Labelled("Height: ", props.height, "m"))
            && Contains(p, Labelled("Young's Modulus: ", props.youngsModulus, "GPa"))
            && Contains(p, Labelled("Point Loads: ", stringify(loads.pointLoads), ""))
            && Contains(p, Labelled("Moment Loads: ", stringify(loads.momentLoads), ""))
            && Contains(p, Labelled("Distributed Loads: ", stringify(loads.distributedLoads), ""))
  {
    PromptHasPart(beamType, supportType, props, loads, stringify, 1);
    PromptHasPart(beamType, supportType, props, loads, stringify, 2);
    PromptHasPart(beamType, supportType, props, loads, stringify, 3);
    PromptHasPart(beamType, supportType, props, loads, stringify, 4);
    PromptHasPart(beamType, supportType, props, loads, stringify, 5);
    PromptHasPart(beamType, supportType, props, loads, stringify, 6);
    PromptHasPart(beamType, supportType, props, loads, stringify, 7);
    PromptHasPart(beamType, supportType, props, loads, stringify, 8);
    PromptHasPart(beamType, supportType, props, loads, stringify, 9);
  }
}
