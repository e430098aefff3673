/** The state of the beam calculator page (the `useState` variables of
    `MainComponent` in src/app/page.jsx) and the handlers that update it.
    Each React setter becomes an assignment to the field it sets. */
module Calculator {
  import opened Text
  import opened Prompt
  import Segmenter

  /** The two pages; `currentPage` holds "home" or "calculator". */
  datatype Page = Home | CalculatorPage

  /** The four material inputs the page has (there is none for the moment of
      inertia). */
  datatype MaterialField = Length | Width | Height | YoungsModulus

  class BeamCalculator {
    var currentPage: Page
    var beamType: string
    var supportType: string
    var materialProps: MaterialProps
    var loads: Loads
    var loadMagnitude: string
    var loadPosition: string
    var showLoadModal: bool
    var loadType: string
    var calculationSteps: seq<string>
    var isCalculating: bool
    var streamingMessage: string

    /** While a calculation is running there are no steps: the results view
        shows the spinner and never the steps of an earlier answer. */
    ghost predicate Valid()
      reads this
    {
      isCalculating ==> calculationSteps == []
    }

    /** The initial values given to `useState`. */
    constructor ()
      ensures Valid()
      ensures currentPage == Home && beamType == "" && supportType == ""
      ensures materialProps == EmptyMaterialProps && loads == NoLoads
      ensures loadMagnitude == "" && loadPosition == "" && !showLoadModal && loadType == ""
      ensures calculationSteps == [] && !isCalculating && streamingMessage == ""
    {
      currentPage := Home;
      beamType, supportType := "", "";
      materialProps := EmptyMaterialProps;
      loads := NoLoads;
      loadMagnitude, loadPosition := "", "";
      showLoadModal := false;
      loadType := "";
      calculationSteps := [];
      isCalculating := false;
      streamingMessage := "";
    }

    /** "New Calculation": the form, the loads, the steps and the streamed text
        go back to their initial values; the page, the busy flag and the load
        dialog are left as they are. */
    method ResetCalculator()
      requires Valid()
      modifies this
      ensures Valid()
      ensures beamType == "" && supportType == ""
      ensures materialProps == EmptyMaterialProps && loads == NoLoads
      ensures calculationSteps == [] && streamingMessage == ""
      ensures currentPage == old(currentPage) && isCalculating == old(isCalculating)
      ensures showLoadModal == old(showLoadModal) && loadType == old(loadType)
      ensures loadMagnitude == old(loadMagnitude) && loadPosition == old(loadPosition)
    {
      beamType := "";
      supportType := "";
      materialProps := EmptyMaterialProps;
      loads := NoLoads;
      calculationSteps := [];
      streamingMessage := "";
    }

    /** `addLoad(type, value)`: for "point", "moment" or "distributed" the value
        goes at the end of that list and the other two lists stay as they were;
        any other type changes no list. Either way the dialog closes. */
    method AddLoad(kind: string, value: Load)
      requires Valid()
      modifies this
      ensures Valid()
      ensures kind == "point" ==>
                loads.pointLoads == old(loads.pointLoads) + [value]
                && loads.momentLoads == old(loads.momentLoads)
                && loads.distributedLoads == old(loads.distributedLoads)
      ensures kind == "moment" ==>
                loads.momentLoads == old(loads.momentLoads) + [value]
                && loads.pointLoads == old(loads.pointLoads)
                && loads.distributedLoads == old(loads.distributedLoads)
      ensures kind == "distributed" ==>
                loads.distributedLoads == old(loads.distributedLoads) + [value]
                && loads.pointLoads == old(loads.pointLoads)
                && loads.momentLoads == old(loads.momentLoads)
      ensures kind != "point" && kind != "moment" && kind != "distributed" ==> loads == old(loads)
      ensures !showLoadModal
      ensures currentPage == old(currentPage) && beamType == old(beamType)
      ensures supportType == old(supportType) && materialProps == old(materialProps)
      ensures loadMagnitude == old(loadMagnitude) && loadPosition == old(loadPosition)
      ensures loadType == old(loadType) && calculationSteps == old(calculationSteps)
      ensures isCalculating == old(isCalculating) && streamingMessage == old(streamingMessage)
    {
      if kind == "point" {
        loads := loads.(pointLoads := loads.pointLoads + [value]);
      } else if kind == "moment" {
        loads := loads.(momentLoads := loads.momentLoads + [value]);
      } else if kind == "distributed" {
        loads := loads.(distributedLoads := loads.distributedLoads + [value]);
      }
      showLoadModal := false;
    }

    /** One of the three "Add ... Load" buttons: remember the kind and open the
        dialog. */
    method OpenLoadDialog(kind: string)
      requires Valid()
      modifies this
      ensures Valid()
      ensures loadType == kind && showLoadModal
      ensures currentPage == old(currentPage) && beamType == old(beamType)
      ensures supportType == old(supportType) && materialProps == old(materialProps)
      ensures loads == old(loads)
      ensures loadMagnitude == old(loadMagnitude) && loadPosition == old(loadPosition)
      ensures calculationSteps == old(calculationSteps)
      ensures isCalculating == old(isCalculating) && streamingMessage == old(streamingMessage)
    {
      loadType := kind;
      showLoadModal := true;
    }

    /** The dialog's "Add" button: add the typed magnitude and position under
        the remembered kind. The typed values are kept for the next load. */
    method ConfirmLoad()
      requires Valid()
      modifies this
      ensures Valid()
      ensures var value := Load(old(loadMagnitude), old(loadPosition));
              var kind := old(loadType);
              (kind == "point" ==>
                 loads == old(loads).(pointLoads := old(loads.pointLoads) + [value]))
              && (kind == "moment" ==>
                    loads == old(loads).(momentLoads := old(loads.momentLoads) + [value]))
              && (kind == "distributed" ==>
                    loads == old(loads).(distributedLoads := old(loads.distributedLoads) + [value]))
              && (kind != "point" && kind != "moment" && kind != "distributed" ==> loads == old(loads))
      ensures !showLoadModal
      ensures currentPage == old(currentPage) && beamType == old(beamType)
      ensures supportType == old(supportType) && materialProps == old(materialProps)
      ensures loadMagnitude == old(loadMagnitude) && loadPosition == old(loadPosition)
      ensures loadType == old(loadType) && calculationSteps == old(calculationSteps)
      ensures isCalculating == old(isCalculating) && streamingMessage == old(streamingMessage)
    {
      AddLoad(loadType, Load(loadMagnitude, loadPosition));
    }

    /** The dialog's "Cancel" button. */
    method CancelLoadDialog()
      requires Valid()
      modifies this`showLoadModal
      ensures Valid()
      ensures !showLoadModal
    {
      showLoadModal := false;
    }

    /** Typing in the dialog's magnitude field. */
    method SetLoadMagnitude(v: string)
      requires Valid()
      modifies this`loadMagnitude
      ensures Valid()
      ensures loadMagnitude == v
    {
      loadMagnitude := v;
    }

    /** Typing in the dialog's position field. */
    method SetLoadPosition(v: string)
      requires Valid()
      modifies this`loadPosition
      ensures Valid()
      ensures loadPosition == v
    {
      loadPosition := v;
    }

    /** Choosing a beam type. */
    method SetBeamType(v: string)
      requires Valid()
      modifies this`beamType
      ensures Valid()
      ensures beamType == v
    {
      beamType := v;
    }

    /** Choosing a support type. */
    method SetSupportType(v: string)
      requires Valid()
      modifies this`supportType
      ensures Valid()
      ensures supportType == v
    {
      supportType := v;
    }

    /** Typing in one material input: that field changes, the others keep
        their text. */
    method SetMaterialProp(field: MaterialField, v: string)
      requires Valid()
      modifies this`materialProps
      ensures Valid()
      ensures materialProps == match field
                case Length => old(materialProps).(length := v)
                case Width => old(materialProps).(width := v)
                case Height => old(materialProps).(height := v)
                case YoungsModulus => old(materialProps).(youngsModulus := v)
    {
      match field
      case Length => materialProps := materialProps.(length := v);
      case Width => materialProps := materialProps.(width := v);
      case Height => materialProps := materialProps.(height := v);
      case YoungsModulus => materialProps := materialProps.(youngsModulus := v);
    }

    /** The "Calculator" and "Home" buttons switch the page and nothing else;
        in particular going home does not reset the form. */
    method Navigate(page: Page)
      requires Valid()
      modifies this`currentPage
      ensures Valid()
      ensures currentPage == page
    {
      currentPage := page;
    }

    /** The start of `calculateResults`: mark the calculation as running, clear
        the steps and the streamed text, and build the prompt from the form as
        it is. The prompt is what would be posted to the chat endpoint. */
    method CalculateResults(stringify: seq<Load> -> string) returns (prompt: string)
      requires Valid()
      modifies this
      ensures Valid()
      ensures isCalculating && calculationSteps == [] && streamingMessage == ""
      ensures prompt == BuildPrompt(beamType, supportType, materialProps, loads, stringify)
      ensures Contains(prompt, StepHeader1) && Contains(prompt, StepHeader2)
              && Contains(prompt, StepHeader3) && Contains(prompt, StepHeader4)
              && Contains(prompt, StepHeader5)
      ensures currentPage == old(currentPage) && beamType == old(beamType)
      ensures supportType == old(supportType) && materialProps == old(materialProps)
      ensures loads == old(loads) && showLoadModal == old(showLoadModal)
      ensures loadMagnitude == old(loadMagnitude) && loadPosition == old(loadPosition)
      ensures loadType == old(loadType)
    {
      isCalculating := true;
      calculationSteps := [];
      streamingMessage := "";
      prompt := BuildPrompt(beamType, supportType, materialProps, loads, stringify);
      PromptHasStepHeaders(beamType, supportType, materialProps, loads, stringify);
    }

    /** `onFinish(message)`: store the segmented steps of the whole answer and
        end the calculation. */
    method FinishCalculation(message: string)
      requires Valid()
      modifies this`calculationSteps, this`isCalculating
      ensures Valid()
      ensures calculationSteps == Segmenter.Segment(message) && !isCalculating
      ensures forall k :: 0 <= k < |calculationSteps| ==>
                '$' !in calculationSteps[k] && '}' !in calculationSteps[k]
    {
      calculationSteps := Segmenter.Segment(message);
      isCalculating := false;
      Segmenter.SegmentSteps(message);
    }

    /** The whole of `calculateResults` for a given answer: the prompt is
        built and posted, and once the endpoint's stream has delivered
        `answer`, `onFinish` stores its steps. Only the steps, the busy flag
        and the streamed text change; what the stream leaves in the streamed
        text is up to the streaming helper, so it is not stated. */
    method RunCalculation(stringify: seq<Load> -> string, answer: string)
      requires Valid()
      modifies this
      ensures Valid()
      ensures calculationSteps == Segmenter.Segment(answer) && !isCalculating
      ensures currentPage == old(currentPage) && beamType == old(beamType)
      ensures supportType == old(supportType) && materialProps == old(materialProps)
      ensures loads == old(loads) && showLoadModal == old(showLoadModal)
      ensures loadMagnitude == old(loadMagnitude) && loadPosition == old(loadPosition)
      ensures loadType == old(loadType)
    {
      var prompt := CalculateResults(stringify);
      FinishCalculation(answer);
    }
  }

  /** The load dialog used as on the page: a point load of magnitude "10" at
      position "2" is the only entry of the point list afterwards. */
  method AddPointLoadThroughDialog() returns (c: BeamCalculator)
    ensures fresh(c) && c.Valid()
    ensures c.loads == Loads([Load("10", "2")], [], []) && !c.showLoadModal
  {
    c := new BeamCalculator();
    c.OpenLoadDialog("point");
    c.SetLoadMagnitude("10");
    c.SetLoadPosition("2");
    c.ConfirmLoad();
  }

  /** A calculation with a filled-in form (any beam type, support type,
      length and moment load) followed by "New Calculation" leaves the page
      where it was and the form, loads, steps and streamed text empty. */
  method CalculateThenReset(beam: string, support: string, length: string, moment: string,
                            answer: string) returns (c: BeamCalculator)
    ensures fresh(c) && c.Valid()
    ensures c.currentPage == CalculatorPage && !c.isCalculating
    ensures c.beamType == "" && c.supportType == "" && c.streamingMessage == ""
    ensures c.loads == NoLoads && c.materialProps == EmptyMaterialProps && c.calculationSteps == []
  {
    c := new BeamCalculator();
    c.Navigate(CalculatorPage);
    c.SetBeamType(beam);
    c.SetSupportType(support);
    c.SetMaterialProp(Length, length);
    c.OpenLoadDialog("moment");
    c.SetLoadMagnitude(moment);
    c.ConfirmLoad();
    c.RunCalculation((ls: seq<Load>) => "[]", answer);
    c.ResetCalculator();
  }
}
