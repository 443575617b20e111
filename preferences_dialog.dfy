/** The logic of the preferences dialog's custom application editor: the
    command template built from an executable's path, the path read back
    out of a stored template, the OK-button check, the application the
    editor produces, and the name clash check of the application list.
    The widgets themselves are not modelled. */
module PreferencesDialogModel {
  import opened PyStr

  /** A custom application: its display name and the command template in
      which `%PATH%` stands for the worktree directory. */
  datatype CustomApplication = CustomApplication(name: string, commandTemplate: string)

  /** The quoted placeholder every generated template ends with. */
  const PATH_ARGUMENT := "\"%PATH%\""

  /** `_generate_command_template`: a path holding a space, or not starting
      with '/', is put in double quotes; the quoted placeholder follows after
      a space. */
  function CommandTemplate(appPath: string): string
  {
    if ' ' in appPath || !StartsWith(appPath, "/") then "\"" + appPath + "\" " + PATH_ARGUMENT
    else appPath + " " + PATH_ARGUMENT
  }

  /** The template starts with a quote exactly when the path needed
      quoting, and always ends with a space and the quoted placeholder. */
  lemma CommandTemplateShape(appPath: string)
    ensures var t := CommandTemplate(appPath);
      (StartsWith(t, "\"") <==> ' ' in appPath || !StartsWith(appPath, "/"))
      && EndsWith(t, " " + PATH_ARGUMENT)
  {
    var t := CommandTemplate(appPath);
    if ' ' in appPath || !StartsWith(appPath, "/") {
      assert t == "\"" + (appPath + "\" " + PATH_ARGUMENT);
      assert t[|t| - |" " + PATH_ARGUMENT|..] == " " + PATH_ARGUMENT;
    } else {
      assert t[0] == appPath[0] == '/';
      assert t[|t| - |" " + PATH_ARGUMENT|..] == " " + PATH_ARGUMENT;
    }
  }

  /** The path `_populate_app_path_edit` writes into the path field for a
      stored template, or None when it leaves the field alone: a template
      opening with a quote that closes later gives the text between the
      quotes; otherwise one with a space gives its text up to the first
      space; otherwise the placeholder is removed. */
  function PathFromTemplate(cmd: string): Option<string>
  {
    if StartsWith(cmd, "\"") && '"' in cmd[1..] then
      var endQuote := FindFrom(cmd, '"', 1);
      if endQuote > 0 then Some(cmd[1..endQuote]) else None
    else if ' ' in cmd then Some(Split(cmd, ' ')[0])
    else Some(Replace(Replace(cmd, " %PATH%", ""), "%PATH%", ""))
  }

  /** `_populate_app_path_edit`: nothing is written without an application
      to edit. */
  function PopulatedPath(existing: Option<CustomApplication>): (r: Option<string>)
    ensures existing.None? ==> r.None?
    ensures existing.Some? ==> r == PathFromTemplate(existing.value.commandTemplate)
  {
    if existing.None? then None else PathFromTemplate(existing.value.commandTemplate)
  }

  /** A template opening with a quote that closes later gives the text
      between the two quotes. */
  lemma QuotedPath(cmd: string)
    requires StartsWith(cmd, "\"") && '"' in cmd[1..]
    ensures var r := PathFromTemplate(cmd);
      r.Some? && '"' !in r.value && StartsWith(cmd, "\"" + r.value + "\"")
  {
    var j :| 0 <= j < |cmd[1..]| && cmd[1..][j] == '"';
    assert cmd[j + 1] == '"';
    var e := FindFrom(cmd, '"', 1);
    assert e != -1;
    var v := cmd[1..e];
    assert forall i :: 0 <= i < |v| ==> v[i] == cmd[i + 1];
    assert cmd[..|v| + 2] == "\"" + v + "\"";
  }

  /** Otherwise a template with a space gives its text before the first
      space. */
  lemma UnquotedPath(cmd: string)
    requires !(StartsWith(cmd, "\"") && '"' in cmd[1..]) && ' ' in cmd
    ensures var r := PathFromTemplate(cmd);
      r.Some? && ' ' !in r.value && StartsWith(cmd, r.value + " ")
  {
    var j :| 0 <= j < |cmd| && cmd[j] == ' ';
    var k := FindFrom(cmd, ' ', 0);
    assert k != -1;
    assert cmd == cmd[..k] + [' '] + cmd[k + 1..];
    SplitHead(cmd[..k], ' ', cmd[k + 1..]);
  }

  /** Otherwise the template loses every `%PATH%`. */
  lemma BarePath(cmd: string)
    requires !(StartsWith(cmd, "\"") && '"' in cmd[1..]) && ' ' !in cmd
    ensures PathFromTemplate(cmd) == Some(Replace(cmd, "%PATH%", ""))
  {
    ReplaceAbsent(cmd, " %PATH%", "");
  }

  /** Reading the path back out of the template generated for it gives the
      path again, for any path without a double quote. */
  lemma TemplateRoundTrip(appPath: string)
    requires '"' !in appPath
    ensures PathFromTemplate(CommandTemplate(appPath)) == Some(appPath)
  {
    var t := CommandTemplate(appPath);
    if ' ' in appPath || !StartsWith(appPath, "/") {
      assert t == "\"" + appPath + "\"" + " " + PATH_ARGUMENT;
      assert t[1..][|appPath|] == '"';
      var e := FindFrom(t, '"', 1);
      assert t[1 + |appPath|] == '"';
      assert forall i :: 1 <= i < 1 + |appPath| ==> t[i] == appPath[i - 1];
      assert e == 1 + |appPath|;
      assert t[1..e] == appPath;
    } else {
      assert t[0] == '/';
      assert t == appPath + [' '] + PATH_ARGUMENT;
      assert t[|appPath|] == ' ';
      SplitHead(appPath, ' ', PATH_ARGUMENT);
    }
  }

  /** `_validate_application_dialog`: OK is enabled when both the stripped
      path and the stripped name are non-empty. */
  predicate OkEnabled(pathText: string, nameText: string)
  {
    Strip(pathText) != [] && Strip(nameText) != []
  }

  /** The command preview `_update_command_preview` shows: the template for
      the stripped path, or nothing for a blank path. */
  function Preview(pathText: string): string
  {
    var appPath := Strip(pathText);
    if appPath != [] then CommandTemplate(appPath) else []
  }

  /** `_extract_application_from_dialog`: an application only when the
      stripped path, the stripped name and the preview are all non-empty. */
  function ExtractApplication(pathText: string, nameText: string, previewText: string)
    : (r: Option<CustomApplication>)
    ensures r.Some? <==> Strip(pathText) != [] && Strip(nameText) != [] && previewText != []
    ensures r.Some? ==> r.value.name == Strip(nameText) && r.value.commandTemplate == previewText
  {
    var appPath := Strip(pathText);
    var name := Strip(nameText);
    if appPath != [] && name != [] && previewText != [] then
      Some(CustomApplication(name, previewText))
    else None
  }

  /** With the preview the dialog itself shows, an application comes out
      exactly when OK was enabled, and its template reads back as the
      stripped path when that holds no double quote. */
  lemma ExtractMatchesOk(pathText: string, nameText: string)
    ensures var r := ExtractApplication(pathText, nameText, Preview(pathText));
      (r.Some? <==> OkEnabled(pathText, nameText))
      && (r.Some? && '"' !in Strip(pathText) ==>
            PathFromTemplate(r.value.commandTemplate) == Some(Strip(pathText)))
  {
    var appPath := Strip(pathText);
    if appPath != [] {
      assert |CommandTemplate(appPath)| > 0;
      if '"' !in appPath {
        TemplateRoundTrip(appPath);
      }
    }
  }

  /** The duplicate-name loops of `_add_application` and
      `_edit_application`: whether an entry other than the one at `except`
      already carries `name`. */
  function NameTaken(apps: seq<CustomApplication>, name: string, except: int): (r: bool)
    ensures r <==> exists i :: 0 <= i < |apps| && i != except && apps[i].name == name
    decreases |apps|
  {
    if apps == [] then false
    else
      var last := |apps| - 1;
      NameTaken(apps[..last], name, except) || (last != except && apps[last].name == name)
  }

  /** No two entries share a name. */
  predicate UniqueNames(apps: seq<CustomApplication>)
  {
    forall i, j :: 0 <= i < j < |apps| ==> apps[i].name != apps[j].name
  }

  /** `_add_application`: a cancelled dialog or a name already in the list
      leaves the list alone; otherwise the application is appended. */
  function AddApplication(apps: seq<CustomApplication>, app: Option<CustomApplication>)
    : (r: seq<CustomApplication>)
    ensures app.Some? && !NameTaken(apps, app.value.name, -1) ==> r == apps + [app.value]
    ensures app.None? || NameTaken(apps, app.value.name, -1) ==> r == apps
  {
    if app.None? || NameTaken(apps, app.value.name, -1) then apps else apps + [app.value]
  }

  /** `_edit_application` on the selected row `current` (None when no row
      is selected): the entry is replaced unless the dialog was cancelled or
      another entry carries the new name. */
  function EditApplication(apps: seq<CustomApplication>, current: Option<nat>, app: Option<CustomApplication>)
    : (r: seq<CustomApplication>)
    requires current.Some? ==> current.value < |apps|
    ensures current.Some? && app.Some? && !NameTaken(apps, app.value.name, current.value) ==>
      r == apps[current.value := app.value]
    ensures current.None? || app.None? || NameTaken(apps, app.value.name, current.value) ==> r == apps
  {
    if current.None? || app.None? || NameTaken(apps, app.value.name, current.value) then apps
    else apps[current.value := app.value]
  }

  /** `_remove_application`: the selected row goes when the user confirms. */
  function RemoveApplication(apps: seq<CustomApplication>, current: Option<nat>, confirmed: bool)
    : (r: seq<CustomApplication>)
    requires current.Some? ==> current.value < |apps|
    ensures current.Some? && confirmed ==>
      |r| == |apps| - 1 && forall i :: 0 <= i < |r| ==> r[i] == apps[if i < current.value then i else i + 1]
    ensures current.None? || !confirmed ==> r == apps
  {
    if current.None? || !confirmed then apps
    else apps[..current.value] + apps[current.value + 1..]
  }

  /** Adding, editing and removing keep the names in the list unique. */
  lemma ListKeepsNamesUnique(apps: seq<CustomApplication>, current: Option<nat>,
                             app: Option<CustomApplication>, confirmed: bool)
    requires UniqueNames(apps)
    requires current.Some? ==> current.value < |apps|
    ensures UniqueNames(AddApplication(apps, app))
    ensures UniqueNames(EditApplication(apps, current, app))
    ensures UniqueNames(RemoveApplication(apps, current, confirmed))
  {
    var added := AddApplication(apps, app);
    if app.Some? && !NameTaken(apps, app.value.name, -1) {
      assert forall i :: 0 <= i < |apps| ==> added[i] == apps[i];
    }
    var removed := RemoveApplication(apps, current, confirmed);
    if current.Some? && confirmed {
      var k := current.value;
      forall i, j | 0 <= i < j < |removed|
        ensures removed[i].name != removed[j].name
      {
        assert removed[i] == apps[if i < k then i else i + 1];
        assert removed[j] == apps[if j < k then j else j + 1];
      }
    }
  }

  /** An application is added exactly when no entry has its name yet, and
      an edit is applied exactly when no other entry has the new name. */
  lemma ListRefusesClashes(apps: seq<CustomApplication>, current: nat, app: CustomApplication)
    requires current < |apps|
    ensures app in AddApplication(apps, Some(app)) <==> app in apps || forall i :: 0 <= i < |apps| ==> apps[i].name != app.name
    ensures EditApplication(apps, Some(current), Some(app))[current] == app <==>
      apps[current] == app || forall i :: 0 <= i < |apps| && i != current ==> apps[i].name != app.name
  {
  }
}
