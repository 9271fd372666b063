/**
 * The filter on the plugin's row of the plugin list: it puts a link to the
 * settings page in front of the row's other action links.
 */
module SettingsLink {

  /** The settings page's query, relative to the admin area. */
  const SettingsPath: string := "options-general.php?page=octahexa-ppcp-fix"

  /**
   * `admin_url('options-general.php?page=octahexa-ppcp-fix')`: the admin
   * area's base URL (which ends in `/`) followed by the page's query.
   */
  function SettingsUrl(adminBase: string): (url: string)
    ensures |url| == |adminBase| + |SettingsPath|
    ensures url[..|adminBase|] == adminBase && url[|adminBase|..] == SettingsPath
  {
    adminBase + SettingsPath
  }

  /** The anchor `<a href="<url>">Settings</a>`; the URL sits between the quotes. */
  function SettingsAnchor(url: string): (html: string)
    ensures |html| == |url| + 23
    ensures html[..9] == "<a href=\"" && html[9..9 + |url|] == url
    ensures html[9 + |url|..] == "\">Settings</a>"
  {
    "<a href=\"" + url + "\">Settings</a>"
  }

  /**
   * `oh_ppcp_fix_plugin_settings_link`: `array_unshift` puts the settings
   * anchor at index 0 and moves every original link one place on, in order.
   */
  function AddSettingsLink(links: seq<string>, adminBase: string): (r: seq<string>)
    ensures |r| == |links| + 1
    ensures r[0] == SettingsAnchor(SettingsUrl(adminBase))
    ensures r[1..] == links
    ensures forall i :: 0 <= i < |links| ==> r[i + 1] == links[i]
  {
    [SettingsAnchor(SettingsUrl(adminBase))] + links
  }

  /** Every original link is still in the list, and nothing but the settings anchor was added. */
  lemma AddSettingsLinkKeeps(links: seq<string>, adminBase: string, x: string)
    ensures x in AddSettingsLink(links, adminBase) <==> x == SettingsAnchor(SettingsUrl(adminBase)) || x in links
    ensures multiset(AddSettingsLink(links, adminBase)) == multiset(links) + multiset{SettingsAnchor(SettingsUrl(adminBase))}
  {
    var r := AddSettingsLink(links, adminBase);
    assert r == [r[0]] + links;
  }
}
