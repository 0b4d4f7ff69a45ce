/** Validated settings and the access they ask for. */
module SiteSettings {
  import opened Names
  import opened NewSites
  import opened Passwords
  import opened Wrappers

  /** What a save asks of the access of a site, resolved only against the row it then finds. */
  datatype Access = OpenAccess | KeepAccess | SetAccess(password: Password)

  datatype Settings = Settings(title: string, entry: string, access: Access, expiry: Expiry)

  datatype SettingsBuilder = SettingsBuilder(title: string, entry: string, access: Option<Access>, expiresIn: string)

  function BuiltSettings(builder: SettingsBuilder): Result<Settings, InputError> {
    if !ValidTitle(builder.title) then Err(TitleError)
    else if !ValidFilename(builder.entry) then Err(SettingsEntryError)
    else if builder.access.None? then Err(AccessError)
    else
      match ParseExpiry(builder.expiresIn)
      case Err(error) => Err(error)
      case Ok(expiry) => Ok(Settings(builder.title, builder.entry, builder.access.value, expiry))
  }

  function SaturatingAdd(a: int, b: int): int {
    if a + b > I64_MAX then I64_MAX else a + b
  }

  /** The expiry a save at `now` leaves, given the current one. */
  function ResolvedExpiry(expiry: Expiry, current: Option<int>, now: int): Option<int> {
    match expiry
    case KeepExpiry => current
    case Never => None
    case After(seconds) => Some(SaturatingAdd(now, seconds))
  }
}
