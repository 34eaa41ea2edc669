/**
 * The window-state part of the display module: the window and fullscreen
 * sizes, the fps limit, the antialiasing request and the window flags.
 * The graphics-API handles the module also holds are not part of this model.
 */
module Devices {

  /** The fps limit value that disables limiting. */
  const NoFpsLimit: real := -1.0

  class Display {
    var windowWidth: int
    var windowHeight: int
    var fullscreenWidth: int
    var fullscreenHeight: int
    var aspectRatio: real

    var title: string
    var icon: string
    var fpsLimit: real
    var antialiasing: bool
    var fullscreen: bool

    var closed: bool
    var focused: bool
    var windowPosX: int
    var windowPosY: int

    /** The width in use: the fullscreen width in fullscreen mode, the window width otherwise. */
    function GetWidth(): (r: int)
      reads this
      ensures fullscreen ==> r == fullscreenWidth
      ensures !fullscreen ==> r == windowWidth
    {
      if fullscreen then fullscreenWidth else windowWidth
    }

    /** The height in use: the fullscreen height in fullscreen mode, the window height otherwise. */
    function GetHeight(): (r: int)
      reads this
      ensures fullscreen ==> r == fullscreenHeight
      ensures !fullscreen ==> r == windowHeight
    {
      if fullscreen then fullscreenHeight else windowHeight
    }

    /** The non-fullscreen width, whatever the mode. */
    function GetWindowWidth(): (r: int)
      reads this
      ensures r == windowWidth
      ensures !IsFullscreen() ==> r == GetWidth()
    {
      windowWidth
    }

    /** The non-fullscreen height, whatever the mode. */
    function GetWindowHeight(): (r: int)
      reads this
      ensures r == windowHeight
      ensures !IsFullscreen() ==> r == GetHeight()
    {
      windowHeight
    }

    function GetAspectRatio(): (r: real)
      reads this
      ensures r == aspectRatio
    {
      aspectRatio
    }

    function GetTitle(): (r: string)
      reads this
      ensures r == title
    {
      title
    }

    function GetIcon(): (r: string)
      reads this
      ensures r == icon
    {
      icon
    }

    function GetFpsLimit(): (r: real)
      reads this
      ensures r == fpsLimit
      ensures r == NoFpsLimit <==> !IsFpsLimited()
    {
      fpsLimit
    }

    /** True unless the fps limit holds the "no limit" value. */
    predicate IsFpsLimited()
      reads this
      ensures IsFpsLimited() <==> fpsLimit != -1.0
    {
      fpsLimit != NoFpsLimit
    }

    function IsAntialiasing(): (r: bool)
      reads this
      ensures r == antialiasing
    {
      antialiasing
    }

    function IsFullscreen(): (r: bool)
      reads this
      ensures r == fullscreen
      ensures r ==> GetWidth() == fullscreenWidth && GetHeight() == fullscreenHeight
    {
      fullscreen
    }

    function IsClosed(): (r: bool)
      reads this
      ensures r == closed
    {
      closed
    }

    function IsFocused(): (r: bool)
      reads this
      ensures r == focused
    {
      focused
    }

    function GetWindowXPos(): (r: int)
      reads this
      ensures r == windowPosX
    {
      windowPosX
    }

    function GetWindowYPos(): (r: int)
      reads this
      ensures r == windowPosY
    {
      windowPosY
    }

    /** Stores the fps limit; only that field may change. */
    method SetFpsLimit(limit: real)
      modifies this`fpsLimit
      ensures GetFpsLimit() == limit
      ensures IsFpsLimited() <==> limit != NoFpsLimit
      ensures GetWidth() == old(GetWidth()) && GetHeight() == old(GetHeight())
    {
      fpsLimit := limit;
    }

    /** Stores the antialiasing request; only that field may change. */
    method SetAntialiasing(enabled: bool)
      modifies this`antialiasing
      ensures IsAntialiasing() == enabled
      ensures GetWidth() == old(GetWidth()) && GetHeight() == old(GetHeight())
    {
      antialiasing := enabled;
    }
  }

  /** The windowed size is what the display uses whenever it is not fullscreen. */
  lemma WindowedSizeInUse(d: Display)
    requires !d.IsFullscreen()
    ensures d.GetWidth() == d.GetWindowWidth() && d.GetHeight() == d.GetWindowHeight()
  {
  }
}
