/** The fixed configuration of the service worker: partition names, the
    pre-declared static asset list, the network-first paths, the CDN hosts the
    worker intercepts and the extensions it treats as static assets. */
module Config {

  const StaticCacheName: string := "claude-static-v1.0.0"
  const DynamicCacheName: string := "claude-dynamic-v1.0.0"

  /** The site root, which is also the offline fallback page. */
  const SiteRoot: string := "/claude-introduce/"

  const StaticAssets: seq<string> := [
    SiteRoot,
    "/claude-introduce/index.html",
    "/claude-introduce/manifest.json",
    "/claude-introduce/assets/css/custom.css",
    "/claude-introduce/assets/js/script.js",
    "https://cdn.tailwindcss.com",
    "https://unpkg.com/alpinejs@3.x.x/dist/cdn.min.js",
    "https://cdn.jsdelivr.net/npm/chart.js"
  ]

  const NetworkFirstPaths: seq<string> := [
    "/claude-introduce/sitemap.xml",
    "/claude-introduce/robots.txt"
  ]

  const StaticExtensions: seq<string> := [
    ".css", ".js", ".png", ".jpg", ".jpeg", ".svg", ".woff", ".woff2"
  ]

  const CdnHosts: seq<string> := [
    "cdn.tailwindcss.com", "unpkg.com", "cdn.jsdelivr.net", "api.iconify.design"
  ]
}
