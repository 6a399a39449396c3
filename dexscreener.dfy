/**
 * The Dexscreener `getTrades` flow: launch a browser, read the project URL and the
 * output name, check the name, open the page, click "Top Traders", read the project
 * name, the five metrics and the top-traders table, and write them to `<name>.json`.
 * The browser, the page and the file system are an environment of answers given up
 * front; the run is the trace of the side effects the flow performs, in order.
 */
module Dexscreener {
  import opened Wrappers
  import opened FileName
  import opened ControlLocator
  import opened FieldExtractor
  import opened TableExtractor

  const NoTopTraders := "No top traders found."

  /**
   * The project page as the flow reads it: the text reads of its buttons, the text of
   * its `h2.chakra-heading` if there is one, the texts of all its spans, and the rows
   * of the top-traders table.
   */
  datatype Page = Page(buttons: seq<ButtonText>, heading: Option<string>, spans: seq<string>, rows: seq<Row>)

  /**
   * What the outside world answers: the rejection of each awaited browser or file call
   * (`None` when the call succeeds), the two prompt answers, the page, and the clock
   * reading used for the `date` field. The texts of the buttons, and their own read
   * failures, are part of the page.
   */
  datatype Env = Env(
    launchError: Option<string>,
    newPageError: Option<string>,
    projectUrl: string,
    jsonFileName: string,
    userAgentError: Option<string>,
    gotoError: Option<string>,
    buttonsError: Option<string>,
    page: Page,
    clickError: Option<string>,
    nameReadError: Option<string>,
    metricsReadError: Option<string>,
    tableWaitError: Option<string>,
    tableReadError: Option<string>,
    now: string,
    writeError: Option<string>,
    closeError: Option<string>)

  /** The object written to the output file: `{projectName, date, ...extraData, topTraders}`. */
  datatype Output = Output(projectName: string, date: string, metrics: Metrics, topTraders: seq<TraderRecord>)

  /** A side effect of the flow, in the order it happens. */
  datatype Event =
    | Launch
    | NewPage
    | Goto(url: string)
    | Click(button: nat)
    | WaitForTable
    | WriteFile(path: string, output: Output)
    | LogError(message: string)
    | LogSuccess(message: string)
    | Close

  /** `getTrades` either settles normally or rejects with the message of an uncaught error. */
  datatype Outcome = Completed | Rejected(message: string)

  datatype Run = Run(events: seq<Event>, outcome: Outcome)

  function OutputPath(name: string): string {
    name + ".json"
  }

  /** The object the flow saves for a page whose "Top Traders" button has been clicked. */
  function PageOutput(page: Page, now: string): Output {
    Output(ProjectName(page.heading), now, ExtractMetrics(page.spans), TopTraders(page.rows))
  }

  /** What the flow reads from the page: where the button loop ends, and the object to save. */
  datatype Readings = Readings(button: Located, output: Output)

  /** The page evaluations of the flow: the button loop, then the project name, the metrics and the table. */
  function ReadPage(env: Env): Readings {
    Readings(Locate(env.page.buttons), PageOutput(env.page, env.now))
  }

  /** The steps after the table has been read: warn on an empty table, write the file, report. */
  function SaveSteps(env: Env, output: Output): seq<Event> {
    (if output.topTraders == [] then [LogError(NoTopTraders)] else [])
    + [WriteFile(OutputPath(env.jsonFileName), output)]
    + match env.writeError
      case Some(e) => [LogError(e)]
      case None => [LogSuccess("Saved to " + OutputPath(env.jsonFileName))]
  }

  /** The steps after the table wait: the table read, then the save. */
  function AfterWait(env: Env, output: Output): seq<Event> {
    if env.tableWaitError.Some? then [LogError(env.tableWaitError.value)]
    else if env.tableReadError.Some? then [LogError(env.tableReadError.value)]
    else SaveSteps(env, output)
  }

  /** The steps after the click has been issued: its settling, the name and metric reads, the table wait. */
  function AfterClick(env: Env, output: Output): seq<Event> {
    if env.clickError.Some? then [LogError(env.clickError.value)]
    else if env.nameReadError.Some? then [LogError(env.nameReadError.value)]
    else if env.metricsReadError.Some? then [LogError(env.metricsReadError.value)]
    else [WaitForTable] + AfterWait(env, output)
  }

  /** The steps after navigation: the button query, the button loop and what follows the click. */
  function AfterGoto(env: Env, rd: Readings): seq<Event> {
    if env.gotoError.Some? then [LogError(env.gotoError.value)]
    else if env.buttonsError.Some? then [LogError(env.buttonsError.value)]
    else match rd.button
      case ReadFailed(m) => [LogError(m)]
      case NotFound => [LogError(ButtonNotFound)]
      case Found(i) => [Click(i)] + AfterClick(env, rd.output)
  }

  /** The body of the `try` block, up to its first thrown error, which the `catch` logs. */
  function TrySteps(env: Env, rd: Readings): seq<Event> {
    if !ValidFileName(env.jsonFileName) then [LogError(InvalidFileName)]
    else if env.userAgentError.Some? then [LogError(env.userAgentError.value)]
    else [Goto(env.projectUrl)] + AfterGoto(env, rd)
  }

  /** How `finally { await browser.close() }` settles the call: a rejected close rejects it. */
  function Settled(env: Env): Outcome {
    if env.closeError.Some? then Rejected(env.closeError.value) else Completed
  }

  /**
   * The flow around given page readings. `launch` and `newPage` are awaited before the
   * `try`, so their failures reject the call; a `newPage` failure also leaves the
   * browser open. Everything inside the `try` is caught and logged, and `finally`
   * closes the browser.
   */
  function Flow(env: Env, rd: Readings): Run {
    if env.launchError.Some? then Run([Launch], Rejected(env.launchError.value))
    else if env.newPageError.Some? then Run([Launch, NewPage], Rejected(env.newPageError.value))
    else Run([Launch, NewPage] + TrySteps(env, rd) + [Close], Settled(env))
  }

  /** `getTrades`: the flow with the page read as the page evaluations read it. */
  function Scrape(env: Env): Run {
    Flow(env, ReadPage(env))
  }

  /**
   * `getTrades`, step by step against the environment: the browser calls before the
   * `try`, the `try` block, and the `finally`.
   */
  method GetTrades(env: Env) returns (run: Run)
    ensures run == Scrape(env)
  {
    if env.launchError.Some? {
      return Run([Launch], Rejected(env.launchError.value));
    }
    if env.newPageError.Some? {
      return Run([Launch, NewPage], Rejected(env.newPageError.value));
    }
    var steps := TryBlock(env);
    var outcome := Completed;
    if env.closeError.Some? {
      outcome := Rejected(env.closeError.value);
    }
    return Run([Launch, NewPage] + steps + [Close], outcome);
  }

  /**
   * The `try` block, with the button loop and the row loop as the imperative code runs
   * them; each awaited call that rejects ends it with the logged error.
   */
  method TryBlock(env: Env) returns (events: seq<Event>)
    ensures events == TrySteps(env, ReadPage(env))
  {
    ghost var rd := ReadPage(env);
    if !ValidFileName(env.jsonFileName) {
      return [LogError(InvalidFileName)];
    }
    if env.userAgentError.Some? {
      return [LogError(env.userAgentError.value)];
    }
    events := [Goto(env.projectUrl)];
    if env.gotoError.Some? {
      return events + [LogError(env.gotoError.value)];
    }
    if env.buttonsError.Some? {
      return events + [LogError(env.buttonsError.value)];
    }
    var located := LocateButton(env.page.buttons);
    assert rd.button == located;
    if located.ReadFailed? {
      return events + [LogError(located.message)];
    }
    if located.NotFound? {
      return events + [LogError(ButtonNotFound)];
    }
    var save := ReadAndSave(env);
    events := events + [Click(located.index)] + save;
  }

  /**
   * The rest of the `try` block after the click has been issued, with the row loop:
   * the name and metric reads, the table wait and read, the empty-table warning, the
   * write and its report.
   */
  method ReadAndSave(env: Env) returns (events: seq<Event>)
    ensures events == AfterClick(env, PageOutput(env.page, env.now))
  {
    if env.clickError.Some? {
      return [LogError(env.clickError.value)];
    }
    if env.nameReadError.Some? {
      return [LogError(env.nameReadError.value)];
    }
    var projectName := ProjectName(env.page.heading);
    if env.metricsReadError.Some? {
      return [LogError(env.metricsReadError.value)];
    }
    var extraData := ExtractMetrics(env.page.spans);
    events := [WaitForTable];
    if env.tableWaitError.Some? {
      return events + [LogError(env.tableWaitError.value)];
    }
    if env.tableReadError.Some? {
      return events + [LogError(env.tableReadError.value)];
    }
    var topTraders := CollectTraders(env.page.rows);
    var output := Output(projectName, env.now, extraData, topTraders);
    if |topTraders| == 0 {
      events := events + [LogError(NoTopTraders)];
    }
    var path := OutputPath(env.jsonFileName);
    events := events + [WriteFile(path, output)];
    if env.writeError.Some? {
      events := events + [LogError(env.writeError.value)];
    } else {
      events := events + [LogSuccess("Saved to " + path)];
    }
  }

  // ---------------------------------------------------------------------------
  // Properties of the flow, whatever the page evaluations return.

  /**
   * The call rejects only when `launch` or `newPage` fails, after only those steps, or
   * when the closing in `finally` fails; every error inside the `try` is logged instead.
   */
  lemma RejectsOnlyOutsideTry(env: Env, rd: Readings)
    ensures Flow(env, rd).outcome.Rejected? <==>
      env.launchError.Some? || env.newPageError.Some? || env.closeError.Some?
    ensures env.launchError.Some? ==> Flow(env, rd) == Run([Launch], Rejected(env.launchError.value))
    ensures env.launchError.None? && env.newPageError.Some? ==>
      Flow(env, rd) == Run([Launch, NewPage], Rejected(env.newPageError.value))
    ensures env.launchError.None? && env.newPageError.None? && env.closeError.Some? ==>
      Flow(env, rd).outcome == Rejected(env.closeError.value)
  {
  }

  /** The steps after the click neither click, navigate nor close. */
  lemma AfterClickShape(env: Env, output: Output)
    ensures forall e :: e in AfterClick(env, output) ==> !e.Click? && !e.Goto? && e != Close
  {
    SaveStepsShape(env, output);
  }

  /**
   * The steps after navigation never navigate again or close the browser, and click
   * only the button the loop ended on, after a successful button query.
   */
  lemma AfterGotoShape(env: Env, rd: Readings)
    ensures forall e :: e in AfterGoto(env, rd) ==> !e.Goto? && e != Close
    ensures forall i :: Click(i) in AfterGoto(env, rd) ==>
      rd.button == Found(i) && env.gotoError.None? && env.buttonsError.None?
  {
    AfterClickShape(env, rd.output);
  }

  lemma TryStepsNoClose(env: Env, rd: Readings)
    ensures Close !in TrySteps(env, rd)
  {
    AfterGotoShape(env, rd);
  }

  /**
   * Once a browser and page exist, the browser is closed exactly once, as the last
   * step, whatever fails in between. When `newPage` fails the browser stays open.
   */
  lemma BrowserClosedLast(env: Env, rd: Readings)
    ensures var ev := Flow(env, rd).events;
      (env.launchError.None? && env.newPageError.None?) <==> (|ev| > 0 && ev[|ev| - 1] == Close)
    ensures var ev := Flow(env, rd).events;
      forall k :: 0 <= k < |ev| - 1 ==> ev[k] != Close
  {
    var ev := Flow(env, rd).events;
    if env.launchError.None? && env.newPageError.None? {
      TryStepsNoClose(env, rd);
      assert forall k :: 2 <= k < |ev| - 1 ==> ev[k] == TrySteps(env, rd)[k - 2];
    }
  }

  /**
   * A name that is empty or has a character outside `[A-Za-z0-9_-]` is reported as
   * "Invalid file name." before any navigation: the page is never opened, nothing is
   * clicked and nothing is written.
   */
  lemma InvalidNameStopsBeforeNavigation(env: Env, rd: Readings)
    requires env.launchError.None? && env.newPageError.None?
    requires !ValidFileName(env.jsonFileName)
    ensures Flow(env, rd) == Run([Launch, NewPage, LogError(InvalidFileName), Close], Settled(env))
  {
  }

  /** A run that navigates had a valid output name and a user agent set, and goes to the URL it was given. */
  lemma NavigationNeedsValidName(env: Env, rd: Readings, url: string)
    requires Goto(url) in Flow(env, rd).events
    ensures ValidFileName(env.jsonFileName) && env.userAgentError.None? && url == env.projectUrl
  {
    var tried := TrySteps(env, rd);
    assert env.launchError.None? && env.newPageError.None?;
    assert Flow(env, rd).events == [Launch, NewPage] + tried + [Close];
    assert Goto(url) in tried;
    assert ValidFileName(env.jsonFileName) && env.userAgentError.None?;
    AfterGotoShape(env, rd);
    assert tried == [Goto(env.projectUrl)] + AfterGoto(env, rd);
  }

  /** The steps after the table wait click nothing, and write exactly the readings' output to `<name>.json`. */
  lemma SaveStepsShape(env: Env, output: Output)
    ensures forall e :: e in SaveSteps(env, output) ==> !e.Click? && !e.Goto? && e != Close
    ensures forall p, o :: WriteFile(p, o) in SaveSteps(env, output) ==> p == OutputPath(env.jsonFileName) && o == output
  {
  }

  /** A clicked button is the one the button loop ended on, after a successful navigation and button query. */
  lemma ClickFollowsReadings(env: Env, rd: Readings, i: nat)
    requires Click(i) in Flow(env, rd).events
    ensures rd.button == Found(i)
    ensures ValidFileName(env.jsonFileName) && env.userAgentError.None?
    ensures env.gotoError.None? && env.buttonsError.None?
  {
    var tried := TrySteps(env, rd);
    assert env.launchError.None? && env.newPageError.None?;
    assert Flow(env, rd).events == [Launch, NewPage] + tried + [Close];
    assert Click(i) in tried;
    assert ValidFileName(env.jsonFileName) && env.userAgentError.None?;
    AfterGotoShape(env, rd);
    assert tried == [Goto(env.projectUrl)] + AfterGoto(env, rd);
  }

  /**
   * A file is written only for a valid name, once every earlier awaited call has
   * succeeded (user agent, navigation, button query, button reads, click, the name and
   * metric reads, the table wait and read), at `<name>.json`, and with the readings' output.
   */
  lemma WriteFollowsReadings(env: Env, rd: Readings, path: string, output: Output)
    requires WriteFile(path, output) in Flow(env, rd).events
    ensures ValidFileName(env.jsonFileName) && env.userAgentError.None?
    ensures env.gotoError.None? && env.buttonsError.None? && rd.button.Found? && env.clickError.None?
    ensures env.nameReadError.None? && env.metricsReadError.None?
    ensures env.tableWaitError.None? && env.tableReadError.None?
    ensures path == OutputPath(env.jsonFileName) && output == rd.output
    ensures Flow(env, rd).events[..5] == [Launch, NewPage, Goto(env.projectUrl), Click(rd.button.index), WaitForTable]
  {
    var tried := TrySteps(env, rd);
    assert WriteFile(path, output) in tried;
    assert ValidFileName(env.jsonFileName) && env.userAgentError.None?;
    var navigated := AfterGoto(env, rd);
    assert tried == [Goto(env.projectUrl)] + navigated;
    assert WriteFile(path, output) in navigated;
    assert env.gotoError.None? && env.buttonsError.None? && rd.button.Found?;
    var clicked := AfterClick(env, rd.output);
    assert navigated == [Click(rd.button.index)] + clicked;
    AfterClickWrites(env, rd.output, path, output);
  }

  /** A write after the click needs every later call to succeed, and writes the given output, after the table wait. */
  lemma AfterClickWrites(env: Env, output: Output, path: string, written: Output)
    requires WriteFile(path, written) in AfterClick(env, output)
    ensures env.clickError.None? && env.nameReadError.None? && env.metricsReadError.None?
    ensures env.tableWaitError.None? && env.tableReadError.None?
    ensures path == OutputPath(env.jsonFileName) && written == output
    ensures AfterClick(env, output)[0] == WaitForTable
  {
    SaveStepsShape(env, output);
  }

  /** Without a matching button, the flow logs the missing button right after navigating. */
  lemma NoButtonFlow(env: Env, rd: Readings)
    requires env.launchError.None? && env.newPageError.None?
    requires ValidFileName(env.jsonFileName) && env.userAgentError.None?
    requires env.gotoError.None? && env.buttonsError.None? && rd.button.NotFound?
    ensures Flow(env, rd) == Run([Launch, NewPage, Goto(env.projectUrl), LogError(ButtonNotFound), Close], Settled(env))
  {
  }

  /** A rejected click is logged, and the browser is closed with nothing read or written. */
  lemma ClickFailureFlow(env: Env, rd: Readings)
    requires env.launchError.None? && env.newPageError.None?
    requires ValidFileName(env.jsonFileName) && env.userAgentError.None?
    requires env.gotoError.None? && env.buttonsError.None? && rd.button.Found?
    requires env.clickError.Some?
    ensures Flow(env, rd) == Run(
      [Launch, NewPage, Goto(env.projectUrl), Click(rd.button.index), LogError(env.clickError.value), Close],
      Settled(env))
  {
  }

  /** An empty list of traders is reported, and then written all the same. */
  lemma EmptyOutputFlow(env: Env, rd: Readings)
    requires env.launchError.None? && env.newPageError.None?
    requires ValidFileName(env.jsonFileName) && env.userAgentError.None?
    requires env.gotoError.None? && env.buttonsError.None? && rd.button.Found? && env.clickError.None?
    requires env.nameReadError.None? && env.metricsReadError.None?
    requires env.tableWaitError.None? && env.tableReadError.None?
    requires rd.output.topTraders == []
    ensures Flow(env, rd).events[5] == LogError(NoTopTraders)
    ensures Flow(env, rd).events[6] == WriteFile(OutputPath(env.jsonFileName), rd.output)
  {
    assert Flow(env, rd).events ==
      [Launch, NewPage, Goto(env.projectUrl), Click(rd.button.index), WaitForTable] + SaveSteps(env, rd.output) + [Close];
  }

  // ---------------------------------------------------------------------------
  // Properties of `getTrades` over the page.

  /**
   * The clicked button is the first, in document order, whose text contains "Top
   * Traders", and the texts of all buttons before it were read.
   */
  lemma ClickIsFirstMatch(env: Env, i: nat)
    requires Click(i) in Scrape(env).events
    ensures i < |env.page.buttons| && env.page.buttons[i].Read? && NamesControl(env.page.buttons[i].text)
    ensures forall j :: 0 <= j < i ==> env.page.buttons[j].Read? && !NamesControl(env.page.buttons[j].text)
  {
    ClickFollowsReadings(env, ReadPage(env), i);
    LocateSpec(env.page.buttons);
  }

  /**
   * When every button text is read and none contains "Top Traders", the flow logs
   * "'Top Traders' button not found." right after navigating, and clicks and writes nothing.
   */
  lemma MissingButtonFails(env: Env)
    requires env.launchError.None? && env.newPageError.None?
    requires ValidFileName(env.jsonFileName) && env.userAgentError.None?
    requires env.gotoError.None? && env.buttonsError.None?
    requires forall j :: 0 <= j < |env.page.buttons| ==> env.page.buttons[j].Read? && !NamesControl(env.page.buttons[j].text)
    ensures Scrape(env) == Run([Launch, NewPage, Goto(env.projectUrl), LogError(ButtonNotFound), Close], Settled(env))
  {
    var rd := ReadPage(env);
    assert rd.button.NotFound?;
    NoButtonFlow(env, rd);
  }

  /**
   * A button whose text read is rejected before any match ends the loop: the rejection
   * is logged right after navigating, and nothing is clicked or written.
   */
  lemma UnreadableButtonStops(env: Env, k: nat)
    requires env.launchError.None? && env.newPageError.None?
    requires ValidFileName(env.jsonFileName) && env.userAgentError.None?
    requires env.gotoError.None? && env.buttonsError.None?
    requires k < |env.page.buttons| && env.page.buttons[k].Unreadable?
    requires forall j :: 0 <= j < k ==> env.page.buttons[j].Read? && !NamesControl(env.page.buttons[j].text)
    ensures Scrape(env) ==
      Run([Launch, NewPage, Goto(env.projectUrl), LogError(env.page.buttons[k].message), Close], Settled(env))
  {
    var rd := ReadPage(env);
    assert Stops(env.page.buttons[k]);
    assert rd.button == ReadFailed(env.page.buttons[k].message);
  }

  /**
   * A written file is `<name>.json` for a valid name; it is written after the first
   * "Top Traders" button was clicked and the table appeared, and it holds the project
   * name, the clock reading, the five metrics and the top traders of the page.
   */
  lemma SavedOutput(env: Env, path: string, output: Output)
    requires WriteFile(path, output) in Scrape(env).events
    ensures ValidFileName(env.jsonFileName) && env.gotoError.None? && env.tableWaitError.None?
    ensures path == env.jsonFileName + ".json"
    ensures output == Output(ProjectName(env.page.heading), env.now, ExtractMetrics(env.page.spans), TopTraders(env.page.rows))
    ensures Locate(env.page.buttons).Found?
    ensures Scrape(env).events[..5] ==
      [Launch, NewPage, Goto(env.projectUrl), Click(Locate(env.page.buttons).index), WaitForTable]
  {
    WriteFollowsReadings(env, ReadPage(env), path, output);
  }

  /**
   * An empty top-traders table is reported but does not stop the flow: the file is
   * still written, with an empty `topTraders` list.
   */
  lemma EmptyTableStillSaved(env: Env)
    requires env.launchError.None? && env.newPageError.None?
    requires ValidFileName(env.jsonFileName) && env.userAgentError.None?
    requires env.gotoError.None? && env.buttonsError.None? && Locate(env.page.buttons).Found? && env.clickError.None?
    requires env.nameReadError.None? && env.metricsReadError.None?
    requires env.tableWaitError.None? && env.tableReadError.None?
    requires TopTraders(env.page.rows) == []
    ensures LogError(NoTopTraders) in Scrape(env).events
    ensures WriteFile(env.jsonFileName + ".json", PageOutput(env.page, env.now)) in Scrape(env).events
  {
    var rd := ReadPage(env);
    EmptyOutputFlow(env, rd);
  }
}
