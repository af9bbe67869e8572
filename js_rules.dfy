/** The rule tables of the JavaScript analyzer variant, transcribed from
    safety-check-improvement.js: `DANGEROUS_COMMANDS` (lines 1-229) and
    `COMMAND_EXPLANATIONS` (lines 232-234). Every pattern is the common anchor
    followed by a body. */
module JsRules {
  import opened Issues

  const Anchor: string := "^(\\s*|.*\\|\\s*)"

  function Anchored(bodies: seq<string>): seq<string> {
    seq(|bodies|, i requires 0 <= i < |bodies| => Anchor + bodies[i])
  }

  /** `high`, lines 2-98. */
  const HighBodies: seq<string> := [
    "rm -rf(?! /data/adb/\\*)\\b",
    "rm -fr(?! /data/adb/\\*)\\b",
    "rm -f(?! /data/adb/\\*)\\b",
    "rm -rf(?! /data/local/tmp/\\*)\\b",
    "rm -fr(?! /data/local/tmp/\\*)\\b",
    "rm -f(?! /data/local/tmp/\\*)\\b",
    "dd if\\b",
    "mkfs.\\b",
    "cat\\b.*(>.*|>>.*|<.*|<<.*|tee.*)",
    "grep\\b.*(>.*|>>.*|<.*|<<.*|tee.*)",
    "cp\\b.*(--remove-destination.*|-f.*)",
    "mv\\b.*(--remove-destination.*|-f.*)",
    "find\\s+\\/.*-exec\\s+rm\\b",
    "find\\s+\\/.*-delete\\b",
    "cd\\s+\\.\\.\\/.*&&.*(rm|chmod|mv|cp)\\b",
    "echo\\b.*\\s*[>|>>]\\s*\\/(etc|system|data)\\/",
    "base64\\s+(-d|--decode|-D)\\b",
    "b64\\s+decode\\b",
    "openssl\\s+base64\\s+-d\\b",
    "python[23]?\\s.*base64\\.b64decode\\b",
    "perl\\s.*decode_base64\\b",
    "\\bb64decode\\b",
    "base58\\s+(-d|--decode)\\b",
    "b58\\s+decode\\b",
    "python[23]?\\s.*base58\\.b58decode\\b",
    "node\\s.*\\b(?:base58|bs58)\\..*decode\\b",
    "\\bb58decode\\b",
    "\\bdecode_base58\\b",
    "xxd \\b",
    "reboot autodloader\\b",
    "echo.*>/etc/passwd\\b",
    "echo.*>/etc/shadow\\b",
    "echo.*>/etc/fstab\\b",
    "sed.*-i.*\\/etc\\/(passwd|shadow|fstab|hosts)\\b",
    "awk.*-i inplace.*\\/etc\\/(passwd|shadow|fstab|hosts)\\b",
    "setenforce 0\\b",
    "wget.*\\|.*(sh|bash|zsh|ksh)\\b",
    "curl.*\\|.*(sh|bash|zsh|ksh)\\b",
    "python.*<.*http\\b",
    "perl.*<.*http\\b",
    ";reboot\\b",
    ";shutdown\\b",
    ";halt\\b",
    ";poweroff\\b",
    "killall system_server\\b",
    "while true.*\\&\\b",
    "for.*;;.*\\&\\b",
    "while.*1.*\\&\\b",
    "until.*0.*\\&\\b",
    "yes\\b",
    "yes.*\\&\\b",
    "dd if=/dev/urandom of=/dev/sda\\b",
    "cat /dev/urandom > /dev/null\\b",
    "cat /dev/zero > /dev/null\\b",
    "nandwrite\\b",
    "sfdisk\\b",
    "parted\\b.*(rm|mkpart|resize)",
    "insmod\\b",
    "rmmod\\b",
    "modprobe\\b",
    "setprop\\b.*(secure|persist|debug)",
    "resetprop\\b",
    "losetup\\b",
    "cryptsetup\\b",
    "gdb\\b.*--batch\\b",
    "strace\\b.*-e\\s+inject",
    "stop\\b",
    "start\\b",
    "svc\\b"
  ]

  /** `medium`, lines 99-188. */
  const MediumBodies: seq<string> := [
    "chmod(?!.*(77[0-7]|666|000))\\b",
    "chown\\b",
    "chgrp\\b",
    "mount\\b",
    "umount\\b",
    "ln -s\\b",
    "touch\\b",
    "rm(?! -rf| -fr)\\b",
    "(\\$\\w+\\s*){3,}\\b",
    "\\$\\w+(\\$\\w+){2,}\\b",
    "(\\$\\{\\w+\\}\\s*){3,}\\b",
    "(\\$\\(\\w+\\)\\s*){3,}\\b",
    "([\"']\\$\\w+[\"']\\s*){3,}\\b",
    "useradd\\b",
    "userdel\\b",
    "groupadd\\b",
    "groupdel\\b",
    "passwd\\b",
    "usermod\\b",
    "su\\b",
    "sudo\\b",
    "adb root\\b",
    "adb remount\\b",
    "chmod\\b.*(777|775|000|666)\\b",
    "\\bchmod\\b.*000.*(\\/system\\/|\\/data\\/|\\/vendor\\/)",
    ".*\\/tmp\\/.*\\b",
    ".*\\/var\\/tmp\\/.*\\b",
    ".*\\/dev\\/shm\\/.*\\b",
    "wget(?!.*\\|.*(sh|bash|zsh|ksh))\\b",
    "curl(?!.*\\|.*(sh|bash|zsh|ksh))\\b",
    "telnet\\b",
    "ftp\\b",
    "nc\\b",
    "ncat\\b",
    "ssh\\b",
    "scp\\b",
    "rsync\\b",
    "reboot\\b",
    "shutdown\\b",
    "halt\\b",
    "poweroff\\b",
    "reboot recovery\\b",
    "reboot bootloader\\b",
    "pm uninstall\\b",
    "am start\\b",
    "adb install\\b",
    "adb uninstall\\b",
    "dumpsys\\b",
    "getprop\\b",
    "pm list\\b.*(granted|permission)",
    "iptables\\b",
    "ip\\b.*(route|link|addr)",
    "ndc\\b",
    "settings\\b.*(global|system)",
    "wm\\b",
    "pm\\b.*(grant|revoke|set-installer)",
    "cmd\\b.*(package|activity)",
    "logcat\\b",
    "dmesg\\b"
  ]

  /** `low`, lines 189-228. */
  const LowBodies: seq<string> := [
    "ls\\b",
    "df\\b",
    "du\\b",
    "ps\\b",
    "top\\b",
    "free\\b",
    "uptime\\b",
    "cp(?!.*--remove-destination.*|-f.*)\\b",
    "mv(?!.*--remove-destination.*|-f.*)\\b",
    "sort\\b",
    "uniq\\b",
    "head\\b",
    "tail\\b",
    "less\\b",
    "more\\b",
    "ping\\b",
    "ping6\\b",
    "traceroute\\b",
    "tracepath\\b",
    "netstat\\b",
    "ifconfig\\b",
    "ip\\b",
    "date\\b",
    "hwclock\\b",
    "timedatectl\\b",
    "export\\b",
    "source\\b",
    "alias\\b",
    "unalias\\b"
  ]

  /** `DANGEROUS_COMMANDS.high`, `.medium` and `.low`, in the order the
      analyzer walks them. */
  const DangerousCommands: seq<Tier> := [
    Tier(HIGH, Anchored(HighBodies)),
    Tier(MEDIUM, Anchored(MediumBodies)),
    Tier(LOW, Anchored(LowBodies))
  ]

  /** `COMMAND_EXPLANATIONS`: an object with a single property. */
  const CommandExplanations: map<string, string> := map[
    "netstat" := "显示网络连接状态，可能用于探测敏感端口"
  ]
}
