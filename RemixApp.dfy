/**
 * The state of the `App` component of src/App.tsx and its remix request
 * lifecycle. The five `useState` cells become fields; `handleRemix` is
 * split at its one suspension point into `BeginRemix` (before the await)
 * and one of `CompleteSuccess` / `CompleteFailure` (after it, each ending
 * with the `finally` block).
 */
module RemixApp {
  import opened JsText
  import opened Options
  import opened Remix

  /** What the running `handleRemix` closure captured from the render in
      which it was invoked. */
  datatype Snapshot = Snapshot(input: JsString, remixType: RemixType)

  /** Shown when a remix fails: plain text, no character needs a surrogate pair. */
  function FailureMessage(): (r: JsString)
    ensures |r| == 67
    ensures forall i :: 0 <= i < |r| ==> !IsHighSurrogate(r[i]) && !IsLowSurrogate(r[i])
  {
    Bmp("Hubo un error al procesar tu solicitud.") + Bmp(" Por favor intenta de nuevo.")
  }

  class App {
    var inputText: JsString
    var outputText: JsString
    var isLoading: bool
    var selectedType: RemixType
    var error: JsString
    /** The closure of the `handleRemix` call awaiting completion, if any. */
    var request: Option<Snapshot>

    /** A request is outstanding exactly while the loading flag is set, and
        no error is shown while it is outstanding. */
    ghost predicate Valid()
      reads this
    {
      (isLoading <==> request.Some?) &&
      (isLoading ==> error == [])
    }

    /** The remix button is enabled: not loading and the text is not empty.
        An enabled button means no request is outstanding. */
    predicate Enabled()
      requires Valid()
      reads this
      ensures Enabled() <==> !isLoading && inputText != []
      ensures Enabled() ==> request == None
    {
      !isLoading && inputText != []
    }

    /** The initial values of the five state cells. */
    constructor ()
      ensures Valid()
      ensures inputText == [] && outputText == [] && !isLoading
      ensures selectedType == Tweet && error == [] && request == None
    {
      inputText := [];
      outputText := [];
      isLoading := false;
      selectedType := Tweet;
      error := [];
      request := None;
    }

    /** Clicking a type button selects that type. */
    method SetType(t: RemixType)
      requires Valid()
      modifies this`selectedType
      ensures Valid()
      ensures selectedType == t
    {
      selectedType := t;
    }

    /** Editing the text area replaces the input text. */
    method SetInput(s: JsString)
      requires Valid()
      modifies this`inputText
      ensures Valid()
      ensures inputText == s
    {
      inputText := s;
    }

    /** `handleRemix` up to its await: set the loading flag, clear the error,
        and keep the closure's view of the input and the type. */
    method BeginRemix()
      requires Valid() && Enabled()
      modifies this`isLoading, this`error, this`request
      ensures Valid()
      ensures isLoading && error == []
      ensures request == Some(Snapshot(inputText, selectedType))
    {
      isLoading := true;
      error := [];
      request := Some(Snapshot(inputText, selectedType));
    }

    /** The await resolves: the remix of the captured input and type becomes
        the output, then the loading flag is cleared. */
    method CompleteSuccess()
      requires Valid() && isLoading
      modifies this`outputText, this`isLoading, this`request
      ensures Valid()
      ensures !isLoading && request == None && error == []
      ensures outputText == MockRemix(old(request).value.input, old(request).value.remixType)
    {
      var snapshot := request.value;
      outputText := MockRemix(snapshot.input, snapshot.remixType);
      isLoading := false;
      request := None;
    }

    /** The try block throws: the fixed message is shown, the previous output
        stays, then the loading flag is cleared. */
    method CompleteFailure()
      requires Valid() && isLoading
      modifies this`error, this`isLoading, this`request
      ensures Valid()
      ensures !isLoading && request == None
      ensures error == FailureMessage()
    {
      error := FailureMessage();
      isLoading := false;
      request := None;
    }

    /** A click on the remix button: a disabled button does nothing. */
    method PressRemixButton() returns (started: bool)
      requires Valid()
      modifies this`isLoading, this`error, this`request
      ensures Valid()
      ensures started == old(!isLoading && inputText != [])
      ensures started ==> isLoading && error == [] && request == Some(Snapshot(inputText, selectedType))
      ensures !started ==> isLoading == old(isLoading) && error == old(error) && request == old(request)
    {
      started := Enabled();
      if started {
        BeginRemix();
      }
    }
  }

  /** The text is edited while a remix is outstanding: the result shown is
      the remix of the text as it was when the button was pressed, while the
      text area holds the edit. */
  method StaleSnapshotScenario(first: JsString, edited: JsString, t: RemixType)
    returns (shown: JsString, current: JsString)
    requires first != []
    ensures shown == MockRemix(first, t)
    ensures current == edited
  {
    var app := new App();
    app.SetType(t);
    app.SetInput(first);
    app.BeginRemix();
    app.SetInput(edited);
    app.SetType(if t == Tweet then Casual else Tweet);
    app.CompleteSuccess();
    shown, current := app.outputText, app.inputText;
  }

  /** A second click while a remix is outstanding starts nothing: at most
      one request is ever in flight. */
  method DoubleClickScenario(text: JsString) returns (first: bool, second: bool)
    requires text != []
    ensures first && !second
  {
    var app := new App();
    app.SetInput(text);
    first := app.PressRemixButton();
    second := app.PressRemixButton();
  }

  /** A failed remix after a successful one shows the error and keeps the
      earlier output; the next attempt clears the error again. */
  method FailureKeepsOutputScenario(text: JsString, t: RemixType)
    returns (outputAfterFailure: JsString, errorAfterFailure: JsString, errorOnRetry: JsString)
    requires text != []
    ensures outputAfterFailure == MockRemix(text, t)
    ensures errorAfterFailure == FailureMessage()
    ensures errorOnRetry == []
  {
    var app := new App();
    app.SetInput(text);
    app.SetType(t);
    app.BeginRemix();
    app.CompleteSuccess();
    app.BeginRemix();
    app.CompleteFailure();
    outputAfterFailure, errorAfterFailure := app.outputText, app.error;
    app.BeginRemix();
    errorOnRetry := app.error;
  }
}
