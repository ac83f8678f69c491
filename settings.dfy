/** The configuration record of internal/config/config.go, as the core reads
    it: the `[general]`, `[paths]` and `[prefix]` tables flattened into one
    value. Loading and saving the TOML file is not part of this model. */
module Settings {

  datatype Config = Config(
    interactive: bool,     // general.interactive
    logLevel: string,      // general.log_level
    logFile: string,       // general.log_file
    workDir: string,       // paths.work_dir
    weModExePath: string,  // paths.wemod_exe_path
    prefixDir: string,     // paths.prefix_dir
    downloadDir: string,   // paths.download_dir
    downloadUrl: string)   // prefix.download_url
}
