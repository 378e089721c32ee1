/** What both menus hand to the operating system. */
module Commands {
  /** A command line, as handed to `subprocess.Popen` or `subprocess.run`: the program and its arguments. */
  type Command = seq<string>

  /**
   * The running interpreter (`sys.executable`) and the settings helper next to the script
   * (`os.path.join(BASE_DIR, "dummy_settings.py")`), both fixed when the program starts.
   */
  const Interpreter := "python3"
  const SettingsScript := "dummy_settings.py"
}
